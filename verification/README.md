# Verified model of the device protocol server

The server accepts TCP connections from devices, authenticates each with an RSA challenge, and relays regular data
frames (command 0x59) between authenticated devices through an in-memory hub. Around that protocol it keeps an
NTP-disciplined clock, rotating log files per device, a pipeline of measurements for charts, and ring histories for the
web interface. This project models these parts in Dafny and proves what the code and its documentation promise of them.

`dafny verify dfyconfig.toml` checks the whole project.

| file | models |
|---|---|
| `Bytes.dfy`, `Sequences.dfy`, `Sorting.dfy`, `Instants.dfy` | little-endian integers and the XOR checksum, "the last n" and subsequences, sorting by insertion as the meaning of `sort`, milliseconds |
| `Frames.dfy` | frame codec and stream reader |
| `Hub.dfy` | the hub's event loop and its refinement of lossy broadcast |
| `Challenges.dfy`, `Auth.dfy`, `Replies.dfy` | challenge layout and lifetime, device ids, the 0x65 handler with the heartbeat, and what it answers to every frame |
| `Transcript.dfy` | the grammar of what one connection does, and what follows from it |
| `Connection.dfy` | one turn of the read loop: gate, dispatch, relay |
| `Server.dfy`, `Relaying.dfy`, `Forwarding.dfy` | any number of connections and subscriber goroutines interleaved with one hub, the relay from end to end, and that no frame is held back |
| `Handshake.dfy` | the client program composed with the server over two byte streams |
| `LeastSquares.dfy`, `Ntp.dfy` | the least-squares fit, the clock, the median of a round |
| `PartNames.dfy`, `LogFiles.dfy`, `FrameLog.dfy` | part names, log files, the frame logger |
| `LogRuns.dfy`, `LogReopen.dfy`, `LogUse.dfy` | whole runs of the logger, reopened sessions, and how connections use it |
| `Measurements.dfy`, `Downsample.dfy` | queue and batches, chart points |
| `Rings.dfy` | ring histories |

How the world appears in the model:

- Bytes are integers from 0 to 255, device ids are byte strings, times and durations are integer nanoseconds.
- `float64` is `real`; a value that is not finite is a separate case where the code tests for it.
- The RSASSA-PKCS1-v1_5 check (section 8.2 of RFC 8017) and PEM parsing are function parameters (`Crypto`). The database,
  the random source, the clocks and the success of a socket write are inputs of each step (`Env`).
- Each `conn.Write` is one atomic step, and so is each event of a single-owner loop. A connection records what it reads,
  asks, checks and writes in a log; the protocol theorems are about these logs.
- The file system is a map from path to content; `Faults` says which stat, open and mkdir calls fail.
- In `LogFiles.dfy` to `LogUse.dfy` a device is its sanitised id, as it is for the logger: ids that are sanitised alike
  share one session and its files.
- A Go channel is a sequence with a capacity; the iteration order of a Go map is arbitrary.

Where the documentation and the code differ, the model follows the code: `README.md:164-168` of the repository puts the
timestamp before the nonce and speaks of a 10-byte device id; the code puts the nonce first
(`internal/tcp/crypto.go:37-39`), uses 14 bytes (`internal/tcp/frame.go:55`) and has a version byte before the signature.

Five plausible claims are false of the code. Each has a run or an input that shows it and its exact condition:

- Corrected times keep their order. Two rounds a second apart with offsets 0 and -2 s make a clock that swaps times
  (`Ntp.ClockSwapsTimes`); they keep it exactly for slopes of at least -1 (`Ntp.MonotoneExactly`).
- Part files of different devices are different files. "N 1" and "N_1" have all files in common, "a b.2" and "a_b" one, and
  so have "N.2" and "N" (`PartNames.AlikeExample`, `PartNames.CollisionExample`). Two devices share a file exactly when
  their ids agree up to characters not allowed in file names, or both have no name of their own (empty, `.`, `..`,
  `unknown`), or one sanitised id is the other followed by a dot and a part number above 1 (`PartNames.ShareFileExactly`).
- The parts of a log hold its lines in logging order. A session that is closed and opened again writes to part 1 although
  part 2 exists (`LogReopen.ReopenedOutOfOrder`). The next line keeps the order, and everything logged while the files stay
  open on that day does, exactly when no part after the one opened held anything (`LogReopen.KeepsOrderExactly`,
  `LogReopen.SessionInOrderExactly`).
- The reference count of a device is the number of callers holding its session. handleConnection closes the session of its
  device id even if it never opened one, which ends the session of another connection and loses its next line
  (`LogUse.StrangerLosesLine`, `LogUse.StrangerEndsSession`). The count is right throughout a run exactly when every close
  of the device came from a holder or found nobody holding (`LogRuns.HoldersExactly`); then whoever holds a session has one
  (`LogRuns.HoldersHaveSession`). For the calls connections make this is: exactly when those that end without having opened
  their logs end while nobody holds the session of their id (`LogUse.ConnectionsExactly`).
- Stopping the measurement store saves everything accepted (`Measurements.QuitLosesQueue`): exactly when the queue is empty
  (`Measurements.QuitFlushesExactly`).

## Model

| member | source | states |
|---|---|---|
| `Server.HubMessagesAuthorised` | internal/tcp/crypto_server.go:151-329 | Over every run of any number of connections, each message the hub handles is one particular publication of a connection whose log shows before it, in order: the key of its device found, the device in service, one challenge, one signature over exactly that challenge verified under exactly that key within the lifetime, status 0x01; its device id is the authorised one from then on |
| `Server.LoopHead` | internal/tcp/crypto_server.go:151-273 | In every reachable state, at the head of the read loop authenticated, step Done and subscribed are equivalent, the subscriber id is never 0, and until its goroutine is gone the connection is in the map of a running hub under its device id |
| `Server.Invariant` | internal/tcp/crypto_server.go:109-332 | Handler step, authenticated flag, device id, subscription and hub map stay consistent over every interleaving of reads, subscriptions, broadcasts, deliveries, departures and shutdown |
| `Server.StepOk` | internal/tcp/crypto_server.go:151-329 | Every single action of any connection, subscriber goroutine or the hub keeps that invariant |
| `Relaying.RelayEndToEnd` | internal/tcp/crypto_server.go:236-298 | Over every run, the bytes a subscriber goroutine has written are, in hub order, the concatenated images of regular frames that other connections read, each with address 0x70 and checksum xor 0x06; no read is relayed twice and the reads of one connection keep their order |
| `Relaying.RelayInHubOrder` | internal/tcp/crypto_server.go:276-298 | What a goroutine wrote is a subsequence of what others broadcast; the broadcasts of a connection are exactly the messages of the frames it published, and these are a subsequence of the regular frames it read |
| `Server.Publisher` | internal/tcp/crypto_server.go:281-293 | Every broadcast the hub handles is one particular publication in the log of the connection with that subscriber id |
| `Transcript.MessagesOfFrames` | internal/cmd/cmd0x59/handler.go:128-134 | The messages published are those of the frames published, readdressed to 0x70 |
| `Transcript.SourcesAdvance` | internal/tcp/crypto_server.go:151-293 | Each publication is made of a read after the previous publication, so no read is published twice |
| `Relaying.RelayedFrameOrigin` | internal/cmd/cmd0x59/handler.go:91-134 | Every frame a subscriber goroutine wrote is byte for byte a 0x59/0x76 frame that another connection read, except for address 0x70 and checksum bits 0x06 |
| `Server.DeliverOk` | internal/tcp/crypto_server.go:245-268 | A subscriber goroutine never meets a message shorter than two bytes, and its frame always fits, so EncodeFrame does not panic |
| `Server.PublishOk` | internal/tcp/crypto_server.go:281-293 | A broadcast always has a sender id above 0 and a well-formed 0x70/0x59 message, and keeps the connection consistent |
| `Server.TranscriptGrammar` | internal/tcp/crypto_server.go:151-329 | In every reachable state the log of every connection is in the protocol grammar |
| `Server.StepsForward` | internal/cmd/cmd0x65/handler.go:52-65 | No action moves a step back; before Done a 0x65 frame advances the step by one or closes the connection |
| `Forwarding.EveryFrameForwarded` | internal/tcp/crypto_server.go:276-298 | Over every run, the 0x59/0x76 frames a connection read after status 0x01 are, in order and without exception, those it handed to the hub followed by the one on its way there; at the loop head and after the end none is on its way |
| `Forwarding.HubHandlesEveryFrame` | internal/cmd/cmd0x59/handler.go:91-134 | Unless the hub is stopping, at the loop head the hub has handled exactly the messages of all device data frames the connection read after its grant |
| `Forwarding.ClosesExactly` | internal/tcp/crypto_server.go:153-233 | A connection ends exactly when reading fails or a 0x65 frame before authorisation does not advance the handshake |
| `Transcript.HandleFollows` | internal/cmd/cmd0x65/handler.go:52-301 | Whatever frame arrives, the handler's queries, checks and writes stay in the grammar, and its state stays linked to the log unless it fails before authorisation |
| `Transcript.AtMostOnce` | internal/cmd/cmd0x65/handler.go:67-301 | At most one challenge is sent and one signature checked; status 0x01 is written once on authorised connections and never on others |
| `Transcript.Credentials` | internal/cmd/cmd0x65/handler.go:67-301 | A log in the grammar holds the evidence of its phase: key query, service query, challenge, verified signature and status 0x01 in this order, all for one device |
| `Transcript.GrantFirst` | internal/tcp/crypto_server.go:221-273 | Nothing is published, relayed or answered with a 0x67 frame before status 0x01 |
| `Transcript.PrefixFollows` | internal/cmd/cmd0x65/handler.go:52-301 | Every prefix of a log in the grammar is in it, and an authorisation keeps its device, key and challenge for ever |
| `Transcript.PublishedWereRead` | internal/cmd/cmd0x59/handler.go:91-134 | The published frames are a subsequence of the regular frames read |
| `Connection.TurnFollows` | internal/tcp/crypto_server.go:199-233 | One turn of the read loop keeps the grammar, and passes a frame on only for an authorised connection whose last read it is |
| `Connection.RelayBytes` | internal/tcp/message.go:77-83 | Relayed bytes equal the bytes read except for address 0x70 and checksum xor 0x06 |
| `Connection.RebuildWire` | internal/tcp/crypto_server.go:249-265 | The subscriber goroutine rebuilds exactly the frame WireBytes flattened |
| `Connection.WireBytes` | internal/tcp/message.go:77-83 | The buffer filled is address, command, payload |
| `Connection.ServerConnection.Dispatch` | internal/tcp/crypto_server.go:199-233 | Lazy handler creation, gate (internal/tcp/middleware.go:67-75) and handlers in place compute the turn all protocol theorems are about; a frame is passed on exactly if the connection is authenticated and it is a 0x59 from 0x76, and frames of other commands than 0x65 change nothing and never fail |
| `Connection.TurnPassesOn` | internal/cmd/cmd0x59/handler.go:91-134 | The same of the turn, in both directions |
| `Auth.HandleAdvances` | internal/cmd/cmd0x65/handler.go:52-65 | Success before Done advances the step by one, failure leaves it; authenticated is set exactly by the successful authorisation and never reset; the device id is fixed after the first step |
| `Replies.ParamReply` | internal/cmd/cmd0x65/handler.go:67-166 | For every frame before a challenge: challenged exactly when the specifier is 0x61, the data holds 14 bytes, the database has a key and says in service, and the random source works; the frame written byte for byte, otherwise the one status 0x03, 0x05, 0x0A or 0x08 of the first failing condition; which id is asked about, in which order |
| `Replies.AuthReply` | internal/cmd/cmd0x65/handler.go:168-301 | For every frame after a challenge: authorised exactly when the specifier is 0x60, the data holds 271 bytes, byte 14 is 1, the first 14 bytes trimmed are the id asked for, the challenge is not expired, the key parses and bytes 15 to 271 verify; statuses 0x00 and 0x01, otherwise exactly those of the first failing condition |
| `Replies.TimeReply` | internal/cmd/cmd0x65/heartbeat.go:29-108 | For every frame after authorisation: a 0x67 with both corrected times exactly when the specifier is 0x66 and the data has 8 bytes, otherwise status 0x03 or 0x05; nothing else changes |
| `Replies.ChallengeBytes` | internal/tcp/crypto.go:29-41 | 40 bytes: the nonce in the first 32, the millisecond of issue in the last 8, least significant byte first |
| `Auth.AuthHandler.HandleFrame` | internal/cmd/cmd0x65/handler.go:52-65 | The handler object refines the step function, fields, context and log included |
| `Auth.AuthHandler.HandleParamRequest` | internal/cmd/cmd0x65/handler.go:67-166 | All rejections with their status codes, the two queries in order, and the challenge |
| `Auth.AuthHandler.HandleAuth` | internal/cmd/cmd0x65/handler.go:168-301 | All rejections with one or two status frames, the signature check, and the grant |
| `Auth.AuthHandler.HandleHeartbeat` | internal/cmd/cmd0x65/heartbeat.go:29-99 | Rejections, and the 0x67 reply from the two corrected times |
| `Auth.AuthHandler.SendTwoStatuses` | internal/cmd/cmd0x65/handler.go:305-330 | Exactly status 0x00 and then the result code are written |
| `Auth.TimeResponseOrdered` | internal/cmd/cmd0x65/heartbeat.go:43-60 | Under one clock state with slope at least -1 the server time of a 0x67 reply is not before its receive time, and both fields decode to the milliseconds they were made from |
| `Auth.BuildTimeResponse` | internal/cmd/cmd0x65/heartbeat.go:103-108 | The 16 bytes are server time and receive time, eight little-endian bytes each |
| `Challenges.GenerateChallenge` | internal/tcp/crypto.go:29-41 | Nonce first, then the millisecond of issue; nothing when the random source fails |
| `Challenges.IssueTime` | internal/tcp/crypto.go:45-51 | ExtractTimestamp gives back the instant of issue rounded down to the millisecond |
| `Challenges.ExpiryExactly` | internal/tcp/crypto.go:54-60 | A challenge is expired exactly when more than TTL passed since its millisecond of issue: always after TTL, never up to TTL minus one millisecond |
| `Challenges.TrimDeviceID` | internal/tcp/crypto_server.go:100-107 | The backward scan returns the one prefix that ends in a byte other than NUL and space and leaves only those behind |
| `Challenges.TrimUnique` | internal/tcp/crypto_server.go:100-107 | There is only one such prefix |
| `Challenges.TrimPad` | internal/tcp/crypto_server.go:93-107 | Padding to 14 bytes and trimming gives the id back exactly for ids of at most 14 bytes that do not end in NUL or space |
| `Handshake.Perform` | cmd/challenge_client/main.go:129-205 | Client and server composed over byte streams: the server ends authorised exactly when the registry has a key for the trimmed id and that device in service, the challenge can be made and sent, the answer is in time and the signature is long enough, fits a frame and verifies under that key; the client ends authorised exactly when the server does and can write its verdict |
| `Handshake.InTimeSucceeds` | internal/cmd/cmd0x65/handler.go:67-301 | A registered device in service with an id of at most 14 bytes not ending in NUL or space and a correct 256-byte signature is authorised as itself up to TTL minus one millisecond |
| `Handshake.LateFails` | internal/cmd/cmd0x65/handler.go:168-301 | After more than TTL every attempt fails, whatever the id, registry and signature |
| `Handshake.AskForChallenge` | cmd/challenge_client/main.go:129-159 | The client obtains exactly the challenge the server issued, or none and the server is not authenticated |
| `Handshake.Authenticate` | cmd/challenge_client/main.go:161-205 | The verdict of the client is the server's and depends only on lifetime and signature |
| `Handshake.AwaitStatuses` | cmd/challenge_client/main.go:182-205 | The status loop accepts exactly answers whose second status is 0x01 |
| `Frames.EncodeFrame` | internal/tcp/frame.go:73-93 | The buffer holds preamble, address, command, little-endian length, data and XOR checksum |
| `Frames.WireLayout` | internal/tcp/frame.go:73-93 | Which byte of an image is what, in numbers: 0x24, address, command, length, data, and a last byte each of whose bits is the parity of that bit over the bytes before |
| `Frames.DecodeFrame` | internal/tcp/frame.go:97-129 | The checks accept exactly the images of valid frames and return the frame imaged |
| `Frames.DecodeEncode` | internal/tcp/frame.go:73-129 | Decoding undoes encoding |
| `Frames.EncodeInjective` | internal/tcp/frame.go:73-93 | No two frames share a wire image |
| `Frames.ChecksMeanEncoding` | internal/tcp/frame.go:97-129 | Bytes that pass the checks are the encoding of their fields |
| `Frames.CrcCalc` | internal/tcp/frame.go:132-141 | Each bit of the result is the parity of that bit over all bytes |
| `Bytes.ChecksumBits` | internal/tcp/frame.go:132-141 | The same of the checksum function, by counting |
| `Bytes.FromLEConcat` | internal/tcp/frame.go:84 | In the length field and the times earlier bytes weigh less, each later one 256 times more |
| `Frames.Readdress` | internal/tcp/frame.go:73-141 | Changing the address changes the checksum by the xor of the addresses and nothing else |
| `Frames.FrameReader.ReadFrame` | internal/tcp/crypto_server.go:367-411 | Returns exactly the next frame behind junk without 0x24 and consumes exactly its bytes; fails only if no frame comes next |
| `Frames.SplitsUnique` | internal/tcp/crypto_server.go:367-411 | There is at most one way to split junk and a frame off a stream |
| `Frames.ReadStream` | internal/tcp/crypto_server.go:367-411 | Repeated reading of frames separated by junk returns these frames in order and leaves what follows, even with 0x24 inside data |
| `Frames.StreamUnique` | internal/tcp/crypto_server.go:367-411 | A byte stream has one reading as so many frames and junk |
| `Hub.RefinesLossyBroadcast` | internal/hub/hub.go:69-129 | For every run and subscriber: taken plus buffered messages are, in order, exactly those broadcast by others while it was joined and had room; the buffer stays within 64; its channel is closed once, when it leaves or the hub ends |
| `Hub.InvHolds` | internal/hub/hub.go:69-111 | In every run the counter equals the map size and exactly departed subscribers have closed channels |
| `Hub.MessagesCounted` | internal/hub/hub.go:82-83 | The message counter is the number of broadcasts handled |
| `Hub.SubscribersOpen` | internal/hub/hub.go:88-107 | No send and no close of a running hub meets a closed channel |
| `Hub.ReplyIgnoresOrder` | internal/hub/hub.go:82-103 | The reply is the same for every map iteration order: sorted, each device once for each of its chosen subscribers |
| `Hub.DeliveredFromOthers` | internal/hub/hub.go:88-98 | What is delivered is a subsequence of what others broadcast |
| `Hub.Hub.OnRegister` | internal/hub/hub.go:73-75 | Refines the registration event and keeps the invariant |
| `Hub.Hub.OnUnregister` | internal/hub/hub.go:76-81 | Removes, closes and counts down once; nothing for a subscriber already gone |
| `Hub.Hub.OnBroadcast` | internal/hub/hub.go:82-103 | Every other subscriber with room gets the message, in any visiting order; sent lists each device once for each of its subscribers but the sender, delivered once for each of those with fewer than 64 buffered, both sorted |
| `Hub.TextLeIs` | internal/hub/hub.go:100-101 | Sorted means byte by byte ascending: a prefix first, otherwise the smaller of the first bytes that differ |
| `Hub.Hub.OnQuit` | internal/hub/hub.go:104-108 | Every remaining channel is closed, each once |
| `Hub.Hub.Allocate` | internal/hub/hub.go:116-121 | A fresh id above 0 with an empty open channel |
| `LeastSquares.Optimal` | internal/ntp/ntp.go:164-189 | No line has a smaller sum of squared residuals than the one computed, also when the denominator is 0 |
| `LeastSquares.DenomSign` | internal/ntp/ntp.go:164-189 | The denominator is never negative and 0 exactly when all sample times coincide |
| `LeastSquares.NormalEquations` | internal/ntp/ntp.go:164-189 | The computed line satisfies both normal equations |
| `LeastSquares.CollinearRecovered` | internal/ntp/ntp.go:164-189 | Collinear samples at distinct times are recovered exactly |
| `LeastSquares.FlatWhenCoinciding` | internal/ntp/ntp.go:164-189 | When all times coincide the line is flat, through the mean |
| `Ntp.Fit` | internal/ntp/ntp.go:164-189 | The accumulation loop and its special cases compute the intercept, truncated to nanoseconds, and the slope of that line |
| `Ntp.CorrectMonotone` | internal/ntp/ntp.go:154-160 | With slope at least -1 corrected times keep their order, truncation included |
| `Ntp.MonotoneExactly` | internal/ntp/ntp.go:154-160 | The correction keeps the order of all times exactly when the slope is at least -1 |
| `Ntp.ClockSwapsTimes` | internal/ntp/ntp.go:116-189 | Two rounds with offsets 0 and -2 s a second apart publish slope -2 and put a later instant before an earlier one |
| `Ntp.MedianMajority` | internal/ntp/ntp.go:116-134 | The median lies in every interval holding a strict majority of the answers |
| `Ntp.MedianUpper` | internal/ntp/ntp.go:129-131 | At most half of the answers, rounded down, are smaller than the median and more than that many are no larger: the upper middle for an even number |
| `Ntp.AnsweredIs` | internal/ntp/ntp.go:117-125 | Every answer is kept, in order, and failures are skipped |
| `Ntp.Clock.AddSample` | internal/ntp/ntp.go:137-146 | The window is the last eight rounds, the estimate is their fit, the reference is the newest |
| `Ntp.Clock.Sync` | internal/ntp/ntp.go:116-134 | A round without answers changes nothing; otherwise the median is appended |
| `Ntp.Clock.CorrectNow` | internal/ntp/ntp.go:154-160 | The identity before the first success; exactly plus the measured offset after one round; in general plus what the least-squares line of the last eight rounds says for that time, within two nanoseconds |
| `Ntp.DriftRecovered` | internal/ntp/ntp.go:154-189 | If the offsets of the rounds drift evenly, every time moves by the offset at that time, within two nanoseconds |
| `Ntp.TruncNear` | internal/ntp/ntp.go:159 | Conversion to nanoseconds goes toward zero, by less than one |
| `PartNames.ShareFileExactly` | internal/tcp/framelog.go:76-93 | Two device ids share a part file exactly when they are sanitised alike or the sanitised ids collide |
| `PartNames.DevicePartsMeet` | internal/tcp/framelog.go:252-257 | Exactly when two parts of any two device ids, numbers and extensions are the same file |
| `PartNames.SanitizeSame` | internal/tcp/framelog.go:76-93 | Two ids get the same name, and with it the same session, exactly when they have equal length and agree up to characters that are not allowed, or both are among the empty id, `.`, `..` and `unknown` |
| `PartNames.AlikeExample` | internal/tcp/framelog.go:76-93 | Two different ids with all files in common, and two with one file in common, although neither is the other with a suffix |
| `PartNames.NamesCollide` | internal/tcp/framelog.go:252-257 | Exactly when two parts of any sanitised ids, numbers and extensions have the same file name |
| `PartNames.PartNameIs` | internal/tcp/framelog.go:252-257 | Part 1 is the name with .hex or .txt, later parts have a dot and their decimal number without leading zero before that |
| `PartNames.NamesApart` | internal/tcp/framelog.go:252-257 | Sanitised ids that do not collide share no part name across ids, numbers or extensions |
| `PartNames.CollisionExample` | internal/tcp/framelog.go:252-257 | Two sanitised ids with dots that do collide |
| `PartNames.SanitizeIdempotent` | internal/tcp/framelog.go:76-93 | Sanitised ids stay as they are |
| `PartNames.SanitizeDID` | internal/tcp/framelog.go:76-93 | The loop computes the sanitised id |
| `PartNames.Sanitize` | internal/tcp/framelog.go:76-93 | Allowed characters stay, each other one becomes an underscore, and the empty id, `.` and `..` become `unknown`; so the result is always a usable file name |
| `FrameLog.FrameLogger.OpenPart` | internal/tcp/framelog.go:252-281 | Terminates, the full parts from `part` on being the measure, at the first part that is not full, with its true size; changes no content |
| `LogFiles.FullShrinks` | internal/tcp/framelog.go:252-281 | Skipping a full part leaves strictly fewer full parts ahead |
| `FrameLog.FrameLogger.Rotate` | internal/tcp/framelog.go:213-226 | The next part with room, or on failure a part from the old one on, or none |
| `FrameLog.FrameLogger.WriteLine` | internal/tcp/framelog.go:192-208 | The line lands whole in one part that was not full, rotating exactly when it does not fit and nothing fails; the cached size stays the file's length |
| `FrameLog.FrameLogger.OpenFiles` | internal/tcp/framelog.go:229-248 | Both files open at their first part with room; only empty files of this device are created |
| `FrameLog.FrameLogger.Open` | internal/tcp/framelog.go:98-112 | Shares an open session or opens its files; a failure leaves the sessions as they were; the cached sizes stay right unless part names collide |
| `FrameLog.FrameLogger.Close` | internal/tcp/framelog.go:116-130 | Takes one holder away and forgets the session with the last one; nothing for a device without a session |
| `FrameLog.FrameLogger.Rollover` | internal/tcp/framelog.go:180-188 | On a new day that day's files are opened, and on failure none stay open |
| `FrameLog.FrameLogger.Log` | internal/tcp/framelog.go:144-177 | A rollover followed by a write; nothing without a session |
| `FrameLog.StepGood` | internal/tcp/framelog.go:98-281 | Every operation keeps, for all sessions at once, the cached sizes equal to the file lengths |
| `LogRuns.LogLands` | internal/tcp/framelog.go:144-208 | At any point of any run a logged line lands whole in exactly one part of its day, below the limit before, and no other file changes; otherwise no content changes and an operation of that device has failed before |
| `LogRuns.EveryWriteLands` | internal/tcp/framelog.go:144-208 | In every run, until an operation of the device fails, every line written to its session finds an open file |
| `LogRuns.RunFilesOpen` | internal/tcp/framelog.go:98-248 | In every run, until an operation of the device fails, its session has both files open |
| `LogRuns.RunRecorded` | internal/tcp/framelog.go:144-281 | After any run every file holds what it held at the start followed by exactly the lines written to it in order, and no line went to a full file |
| `LogRuns.RunRotationBound` | internal/tcp/framelog.go:192-226 | After any run every part written to is shorter than the limit plus its last line |
| `LogRuns.LinesInOrder` | internal/tcp/framelog.go:144-281 | While a file stays open on one day and later parts held nothing at first, whatever other devices do, its parts spell what they spelled before followed by its lines in order |
| `LogRuns.ContinuousSession` | internal/tcp/framelog.go:144-281 | For a session begun in a folder without earlier parts and held since, without failures of its device or a rollover, the parts in order are exactly all its lines in logging order, whatever other devices do |
| `LogRuns.RefsExact` | internal/tcp/framelog.go:98-130 | In every run a device has a session exactly while it has holders, and the count is their number |
| `LogRuns.RefsBalanced` | internal/tcp/framelog.go:98-130 | The count is successful opens minus closes exactly when in no prefix the closes exceed the opens, and is never less |
| `LogRuns.HoldersExactly` | internal/tcp/framelog.go:98-130 | For every run and every labelling of its calls with callers: the count of a device is the number of its holders at every moment exactly when every close of that device came from a holder or found nobody holding |
| `LogRuns.HoldersHaveSession` | internal/tcp/framelog.go:98-130 | With such closes, whatever happens to other devices, whoever holds a session has one at every moment |
| `LogUse.ConnectionLogs.OnFrame` | internal/tcp/crypto_server.go:182-197 | A frame of an authenticated connection opens the logs if it is the first such frame, once even if that fails, and its line then lands whole in one .hex part of the device of that day while no other file changes, or no content changes; without failures it lands exactly if the logs are being opened or the session has that file open or a new day to open; other frames do nothing |
| `LogUse.ConnectionLogs.LogHex` | internal/tcp/framelog.go:144-164 | The line lands whole in one .hex part of that day or no content changes, and without failures it lands exactly if the device has a session with that file open or a new day to open |
| `LogUse.ConnectionLogs.OnEnd` | internal/tcp/crypto_server.go:134-137 | The end of a connection closes the session of its id, whether or not it opened one |
| `LogUse.HolderExactly` | internal/tcp/crypto_server.go:134-197 | A connection that ends closes a session it holds exactly when it had opened its logs |
| `LogUse.ConnectionsExactly` | internal/tcp/crypto_server.go:134-197 | With the calls connections make, the count of a device is the number of connections holding it exactly when those that end without having opened their logs end while nobody holds it |
| `LogUse.StrangerEndsSession` | internal/tcp/crypto_server.go:134-137 | A run in which a close by a caller that never opened ends the session another caller holds, after which no line of the device can be written |
| `LogUse.StrangerLosesLine` | internal/tcp/crypto_server.go:134-197 | Two connections with the same id on one logger: the end of the one that never opened its logs makes the next frame of the other go unlogged |
| `LogUse.BothLinesLogged` | internal/tcp/crypto_server.go:182-197 | Without the other connection both frames are logged |
| `LogFiles.SpellsAppend` | internal/tcp/framelog.go:192-226 | Appending to the last part that holds anything or going on with the next one extends what the parts spell |
| `LogReopen.SessionInOrderExactly` | internal/tcp/framelog.go:144-281 | For files a session has just opened: in every run in which its file stays open on that day, with rotations, failures and other devices, the parts stay in logging order exactly when no later part held anything at the opening |
| `LogReopen.KeepsOrderExactly` | internal/tcp/framelog.go:229-248 | A file just opened by a session keeps parts 1 to n in logging order for whatever text is logged to it next exactly when none of the parts after it held anything |
| `LogReopen.ReopenedOutOfOrder` | internal/tcp/framelog.go:229-248 | A run of open, write, rotating write, close, open, write whose parts do not hold the lines in logging order |
| `Measurements.Conservation` | internal/store/measurement_store.go:81-119 | Over every interleaving: accepted measurements are, in order, those handed to the database, then the batch, then the queue; accepted plus dropped is the number of calls; batches of 1 to 512, queue of at most 2048, batch empty after quit |
| `Measurements.QueueLeftAtQuit` | internal/store/measurement_store.go:114-116 | After the loop ends nothing is inserted any more and what was queued stays queued |
| `Measurements.AfterTick` | internal/store/measurement_store.go:112-113 | After a tick everything accepted is with the database or in the queue, in order |
| `Measurements.ReceiveHandsOver` | internal/store/measurement_store.go:106-111 | A batch is handed over on receipt exactly when the measurement is its 512th |
| `Measurements.QuitFlushesExactly` | internal/store/measurement_store.go:91-119 | Quitting saves everything accepted exactly when the queue is empty |
| `Measurements.QuitLosesQueue` | internal/store/measurement_store.go:114-116 | A run that loses an accepted measurement |
| `Measurements.MeasurementStore.Enqueue` | internal/store/measurement_store.go:81-89 | Refines the offer event: appended, or counted as dropped when the queue is full |
| `Measurements.MeasurementStore.OnReceive` | internal/store/measurement_store.go:106-111 | Moves the oldest measurement to the batch and flushes at 512 |
| `Measurements.MeasurementStore.OnTick` | internal/store/measurement_store.go:112-113 | Hands over the batch if there is one |
| `Measurements.MeasurementStore.OnQuit` | internal/store/measurement_store.go:114-116 | Hands over the batch and ends |
| `Downsample.QueryRange` | internal/store/measurement_store.go:169-191 | Bucket by bucket, a point's offset is null exactly when no row is both flagged valid and finite, otherwise their mean; validity bits are the common ones; at most maxPoints points, every row counted once, times in order for sorted rows, each point carrying the times of the first row of its bucket |
| `Downsample.BucketAt` | internal/store/measurement_store.go:234-239 | Bucket k holds the samples from k times the bucket size on |
| `Downsample.BucketSize` | internal/store/measurement_store.go:229-232 | The smallest bucket size that needs no more than maxPoints buckets |
| `Downsample.Downsample` | internal/store/measurement_store.go:225-250 | Each point summarises its contiguous bucket |
| `Downsample.SummaryShape` | internal/store/measurement_store.go:225-266 | At most maxPoints points, counts summing to the input length, received times in order when the input is sorted |
| `Downsample.SplitPartitions` | internal/store/measurement_store.go:231-250 | The buckets in order are the samples, each non-empty and within the bucket size |
| `Downsample.RawToPoints` | internal/store/measurement_store.go:252-266 | The undecimated case is the bucketing into single samples |
| `Downsample.AvgOff` | internal/store/measurement_store.go:269-291 | Null exactly without finite values, otherwise mean times count is their sum |
| `Downsample.MeanBetween` | internal/store/measurement_store.go:269-291 | A mean lies between any bounds of the values |
| `Downsample.CommonValidity` | internal/store/measurement_store.go:244-246 | A bit is set exactly when it is set in every sample |
| `Downsample.ApplyValidity` | internal/store/measurement_store.go:208-219 | Exactly the offsets whose bit is clear become not finite, nothing else changes |
| `Downsample.AppliedValues` | internal/store/measurement_store.go:208-219 | After the mask the finite values are those flagged valid and finite before |
| `Rings.LogServer.AddToHistory` | internal/web/logs.go:53-59 | The ring stays the last 100 of blanks and pushes |
| `Rings.LogServer.GetHistory` | internal/web/logs.go:62-78 | The non-empty messages among the last 100 pushes, in order |
| `Rings.TimeLogServer.OnEntry` | internal/web/timelog.go:48-57 | Every device's ring stays the last 500 entries of that device, untouched by others |
| `Rings.TimeLogServer.History` | internal/web/timelog.go:79-93 | The last 500 entries of the device in order |
| `Rings.RingReads` | internal/web/timelog.go:79-93 | The written cells of a ring from the oldest on are the last 500 entries |
| `Rings.NonEmptyIs` | internal/web/logs.go:62-78 | What is read back is exactly the messages that are not empty, in order, each as often as it occurs |
| `Rings.OfIs` | internal/web/timelog.go:48-57 | The entries of a device are exactly those that carry its id, in order, each as often as it occurs |
| `Sequences.LastNIs` | internal/web/timelog.go:79-93 | The last n are a suffix of at most n elements, and all of them if it is shorter |

## Left out

- `Handshake.Perform`: the signature is short enough that the frame length fits its 16-bit field; longer data would make the client send a wrong length.
- `Auth.TimeResponseOrdered`: times whose millisecond count does not fit a signed 64-bit integer are not covered.
- `FrameLog.FrameLogger.Open`: after opening a sanitised id that collides with one that has a session, nothing more is promised; `PartNames.NamesCollide` says exactly which do.
- `FrameLog.FrameLogger.WriteLine`: a write to an open file always succeeds, so lines torn or lost by a full disk do not appear; flushing and buffering do not appear.
- `LogUse.ConnectionLogs.OnFrame`: the connection objects are not steps of `Server.dfy`; that its connections make these calls is read off the code. Opening a device that collides with one that has a session is excluded.
- `PartNames.Sanitize`: an id is a sequence of code points; bytes that are not UTF-8 count as one character each.
- `Hub.Hub.Allocate`: ids are unbounded; wrap-around after 2^64 subscriptions does not appear.
- `Ntp.Fit`: real arithmetic; float64 rounding, overflow and not-a-number do not appear.
- `Downsample.AvgOff`: real arithmetic, as above; a sum that overflows to infinity does not appear.
- `Downsample.ApplyValidity`: a 32-bit mask is the set of its bits.
- `Rings.TimeLogServer.OnEntry`: sending to WebSocket clients is not part of it; a client can miss entries between history and registration.
- Progress: Subscribe has no way out once the hub has stopped, and nothing is claimed about goroutines ending, idle timeouts, linger or shutdown.
- The reply of a broadcast that is lost because the hub stops in between, and the log lines made from replies.
- Side effects of the handlers on file logs, measurements, time logs and last-seen times; these parts are modelled on their own.
- Commands other than 0x65 and 0x59 and delivery modes other than none and broadcast, which no registered handler uses.
- Field decoding and text formatting of 0x59 data, log line formatting, CloseAll and clean-up of old log folders.
- RSA, SHA-256, PEM parsing, random generation and the NTP query, which are foreign libraries.
- PostgreSQL stores, sessions, users, HTTP routes, templates, configuration, health monitor and key generation, whose behaviour is in the database or easy.
