# Verification model of the YFS stack

This project models the YFS stack: a remote procedure call library with at-most-once
execution, a lock server, an extent (object) store, and a file system client that
combines them, and proves properties of that model with Dafny.  `dafny verify
dfyconfig.toml` checks all of it.

## What is modelled

**Remote procedure calls.**  `AckList` is the client's compressed list of acknowledged
xids, `ReplyWindow` the server's reply window and high-water mark.  `RpcSystem` puts any
number of clients, a network that loses, duplicates and reorders messages, and a server
that restarts under new nonces into one step relation that counts handler executions.
The check of rpc/rpc.cc:659-707 departs from the comment above it
(rpc/rpc.cc:645-658) in two places: line 672 compares with `>`, so a late duplicate
whose xid equals the mark is not refused, and lines 697-700 assign the iterator that
`erase` returns and then increment it, which steps over an entry or past the end.  The
model has both checks: `DocumentedCheck` follows the comment and carries the
at-most-once theorem (`RpcProof`); `LiteralCheck` and the class `ReplyCache` follow the
code.  Moving an iterator past the end is undefined in C++; there it is a step into an
undefined state, in which a run ends.  `RpcLiteral` proves exactly which runs stay
defined and execute nothing again.  `RpcOneBind` shows how short these are for ordinary
clients: the lock, extent and group clients send one bind request each
(lock_client.cc:16, extent_client.cc:20, group_util.cc:11), and the first other request
of such a client that its server instance takes up passes the end, so in the defined
part of any run none of them is served.  `CircularWindow` therefore also takes the
check on a list whose end leads back to its beginning, as implementations of std::list
build it, and `RpcLiteral` proves exactly which runs execute nothing again there.
`RpcCounterexample` gives the run that passes the end at the first call, and runs in
which a request is executed twice: two of a client with two concurrent binds, and one
of an ordinary client on the circular list.  `RpcAnswers` says what the server answers
and when a call fails, `RpcSteps` what the single steps mean to the caller and that a
call that waits can always be completed.

**Transport.**  `Codec` is the wire format of typed values, `Marshall` the growable
output buffer and the input cursor proved against it.  `Connection` is the sending side
of a connection with concurrent callers of `send`, `Delivery` the receiving side and the
two together over one byte stream, `Channel` the object whose methods are steps of both.
`Fifo` and `ThrPool` are the blocking queue and the worker pool, `SelectAio` and
`PollMgr` the poll loop and the removal handshake, `Closing` a connection beside that
loop, whose callback may find it dead, and `Timing` the deadlines of a call.

**Locks and extents.**  `LockServer` is the lock table with its condition variables,
`LockRpc` that server behind the at-most-once protocol, with mutual exclusion from end
to end, `Extents` the store with its permission checks.

**File system.**  `DirText` and `DirOps` treat a directory as the one string it is,
edited by substring search, and relate every operation to the entry list the string
stands for.  `FileData` is reading, writing and resizing a file.  `FsProgram` breaks each
client operation into lock, get, put, getattr, setattr and remove steps, and `FsAnswers`
says what each whole operation answers and changes; `Serial` and
`SerialProof` prove that interleaving them equals running whole operations one after
another; `FsMeaning`, `FsSystem`, `FsTheorems` and `FsProgress` prove what that keeps: no dangling
entries, no lost update, no deadlock, and an end to every operation.

## How to read it

Concurrent code is modelled with one step for each stretch of code that runs under its
mutex, from taking it to releasing it or to a wait; a step relation leaves scheduling,
signals, lost messages, partial reads and writes and spurious wake-ups open.  A lemma
named `...Keeps` says that a step keeps an invariant; the main results are about every
state of every run (`IsRun`).  Objects that the source updates in place are classes;
their methods say what they do by a function on values or a step of the model, and the
properties are proved about those.

Assumptions, stated in the contracts: client and server nonces are distinct, client
nonces not zero, xids and lengths do not
wrap around; a request's xid_rep is below its xid, which holds of every request a client
sends (`RequestOk`); waits of a call do not end early (`WaitsFully`); names contain no slash; a create
uses an inum that nothing has used (`Unused`) and that is ranked after its directory,
both of which follow when every create picks a new inum (`NewInumsSuffice`); a name looked up or unlinked
is not the decimal text of a listed inum (`Clear`); callers release only locks they hold
(`Disciplined`, which `LockRpc` derives from scoped locks, `MayAsk`, and at-most-once
execution); the stream between two connections delivers bytes in order.

## Model

| member | source | states |
|---|---|---|
| `AckList.UpdateAcknowledges` | rpc/rpc.cc:385-408 | Acknowledging an xid turns a list that stands for a set of xids into one that stands for that set with the xid added, whether or not it was there before (both callers may acknowledge the same xid), and never lowers the head. |
| `AckList.HeadIsLargestPrefix` | rpc/rpc.cc:385-408 | The head is the largest k such that every xid from 1 to k is acknowledged, and the rest of the list is exactly the acknowledged xids above it. |
| `AckList.HeadDependsOnAckedOnly` | rpc/rpc.cc:385-408 | The order in which replies arrived does not show: two lists for the same acknowledged xids have the same head. |
| `AckList.CompressKeeps` | rpc/rpc.cc:403-407 | The compressing loop restores the representation from the state the insertion leaves, duplicates in the list included. |
| `AckList.InsertSorts` | rpc/rpc.cc:394-400 | The insertion loop keeps the list sorted. |
| `AckList.AckWindow.UpdateXidRep` | rpc/rpc.cc:386-408 | The method on the object's list: it acknowledges one xid more and leaves the list of the specification. |
| `AckList.AckWindow.InsertInOrder` | rpc/rpc.cc:394-400 | The insertion loop leaves the list with the xid at its sorted place. |
| `AckList.AckWindow.Compress` | rpc/rpc.cc:403-407 | The two nested loops, popping from the front while an iterator walks the same list, leave the compressed list. |
| `ReplyWindow.DocumentedNeverAcceptsTwice` | rpc/rpc.cc:645-658 | The step the comment describes: whenever every accepted xid above the mark is in the window, a request that comes back NEW was not accepted before, and the same holds afterwards. |
| `ReplyWindow.StreamAcceptsAtMostOnce` | rpc/rpc.cc:645-658 | Any stream of requests and recorded replies, duplicates and reorderings included, makes the documented step answer NEW for an xid at most once. |
| `ReplyWindow.PruneSpec` | rpc/rpc.cc:650-652 | What the comment asks of the deletion: exactly the entries above xid_rep stay. |
| `ReplyWindow.LookupAnswers` | rpc/rpc.cc:653-658 | Looking an xid up: no entry is NEW, an entry without reply is INPROGRESS, and one with a reply is DONE with exactly its bytes. |
| `ReplyWindow.DocumentedAnswers` | rpc/rpc.cc:645-658 | The whole answer of the documented step: FORGOTTEN exactly at or below the mark, otherwise NEW, INPROGRESS or DONE with the saved bytes by the entry of the xid; the mark becomes the larger of the old one and xid_rep. |
| `ReplyWindow.DocumentedLeaves` | rpc/rpc.cc:650-652 | And what it leaves: the entries above xid_rep and, for a new request, one pending entry of its own. |
| `ReplyWindow.LiteralRefuses` | rpc/rpc.cc:672-674 | The check as written refuses exactly what lies below the mark, and then changes nothing. |
| `ReplyWindow.LiteralTells` | rpc/rpc.cc:683-695 | When the walk meets the entry it answers DONE with the saved bytes or INPROGRESS, and erases of the entries walked past exactly those that the skipping loop meets. |
| `ReplyWindow.LiteralAccepts` | rpc/rpc.cc:683-706 | A request without an entry is NEW, unless the walk passes the end: its pending entry goes to the back of what the walk has spared. |
| `ReplyWindow.ScanFindsIffEvenRun` | rpc/rpc.cc:683-701 | The loop as written, which steps once more after an erase, finds the entry of a duplicate exactly when an even number of deletable entries stands directly before it, and then answers DONE with the saved bytes if there are any and INPROGRESS if not. |
| `ReplyWindow.ScanOverrunsIffOddTail` | rpc/rpc.cc:683-701 | A scan that finds nothing steps past the end of the list exactly when an odd number of deletable entries ends it. |
| `ReplyWindow.LiteralReexecutesIff` | rpc/rpc.cc:660-707 | The check as written answers NEW for an xid accepted before exactly when the hazard holds: its entry is gone because the mark equals it, or the scan steps over it. |
| `ReplyWindow.LiteralOverrunsIff` | rpc/rpc.cc:660-707 | The exact condition under which the check as written advances an iterator past the end. |
| `ReplyWindow.StepsMoveMarkAlike` | rpc/rpc.cc:666-679 | For any mark, window and request the documented and the literal check move the mark to the same value, also when the scan passes the end, and neither adds anything to the window but the request's own entry. |
| `ReplyWindow.WithReplySpec` | rpc/rpc.cc:714-729 | Recording a reply changes exactly the entry of its xid. |
| `ReplyWindow.Walk` | rpc/rpc.cc:682-701 | The erasing iterator loop computes the specified scan, iterator past the end included. |
| `ReplyWindow.WalkToReply` | rpc/rpc.cc:720-728 | The loop of add_reply computes the specified window. |
| `ReplyWindow.ReplyCache.CheckDuplicateAndUpdate` | rpc/rpc.cc:659-707 | The method on the two maps answers and changes what the literal check says, for this client only. |
| `ReplyWindow.ReplyCache.AddReply` | rpc/rpc.cc:714-729 | The method on the map records the reply in this client's window and touches no other. |
| `CircularWindow.CircularFindsIff` | rpc/rpc.cc:683-701 | With a list whose end leads back to its beginning, the loop as written finds the entry of a duplicate exactly when the number of deletable entries directly before it ends, in binary, in no more ones than the number of those that close the list (each round trip halves both runs), and then tells the state of the entry: DONE with the saved bytes, or INPROGRESS. |
| `CircularWindow.CircularAnswers` | rpc/rpc.cc:660-707 | The whole answer on such a list: FORGOTTEN below the mark, the state of the entry when some round meets it, and NEW otherwise. |
| `CircularWindow.SurvivorsAreSpared` | rpc/rpc.cc:697-700 | A round leaves exactly the entries that are above xid_rep or stand behind an odd number of deletable ones. |
| `CircularWindow.CircularReexecutesIff` | rpc/rpc.cc:660-707 | On such a list the check answers NEW for an xid accepted before exactly when the mark equals it and its entry is gone, or every round steps over its entry. |
| `CircularWindow.CircularMovesMarkAlike` | rpc/rpc.cc:666-679 | There, too, the mark moves to the same value, and the window gains nothing but the request's own entry. |
| `CircularWindow.WalkAround` | rpc/rpc.cc:682-701 | The erasing iterator loop on such a list, which may go round any number of times, ends and computes the specified scan. |
| `RpcProof.AckStep` | rpc/rpc.cc:208-214 | Every step of clients, network and server, under either check, keeps the acknowledgement invariants: marks never exceed what the client has acknowledged. |
| `RpcProof.WaitingIsNeverForgotten` | rpc/rpc.cc:666-679 | In every run with lost, duplicated and reordered messages and server restarts, with the documented or the literal check, a request whose call still waits is never classified FORGOTTEN. |
| `RpcProof.ExecStep` | rpc/rpc.cc:498-643 | Every step with the documented check keeps the execution invariants: accepted xids above the mark are remembered, results belong to executions, replies carry results. |
| `RpcProof.AtMostOnce` | rpc/rpc.cc:498-707 | In every such run with the documented check, the handler of each (client nonce, xid) other than a bind runs at most once over all server instances, and the behaviour stays defined. |
| `RpcProof.ReturnedResultIsTheExecutions` | rpc/rpc.cc:188-323 | If a call has returned a handler's result, its handler ran exactly once and the bytes are those that execution produced. |
| `RpcProof.ResendsAreIdentical` | rpc/rpc.cc:585-643 | Any two handler replies for one call, sent at any times, are the same message. |
| `RpcAnswers.AnswerTellsProgress` | rpc/rpc.cc:645-707 | In every run with the documented check, while a call waits, the instance its request is meant for answers by the progress of the handler: DONE with exactly its result if and only if it has finished, INPROGRESS if and only if it runs, NEW if and only if it was never started. |
| `RpcAnswers.DeliveryAnswers` | rpc/rpc.cc:522-641 | What each delivery sends: oldsrv_failure exactly to requests that name another instance, atmostonce_failure exactly for FORGOTTEN, the saved bytes for DONE, and nothing for NEW and INPROGRESS. |
| `RpcAnswers.ForgottenIsAcked` | rpc/rpc.cc:666-674 | With any of the checks, a request classified FORGOTTEN is one whose reply its client has acknowledged. |
| `RpcAnswers.NoCallIsForgotten` | rpc/rpc.cc:634-640 | In every run, with any of the checks, no call comes back with atmostonce_failure, and that reply is only ever sent for acknowledged xids. |
| `RpcAnswers.OldServerIsGone` | rpc/rpc.cc:522-531 | In every run, a request that was answered with oldsrv_failure names an instance that is not the present one and, as this holds of every later state, never comes back. |
| `RpcSteps.CallAcknowledges` | rpc/rpc.cc:194-215 | A call sends one request under an xid above all earlier ones of its client, for the instance the client is bound to, acknowledging exactly up to the first missing reply. |
| `RpcSteps.ReplySettlesCall` | rpc/rpc.cc:348-382 | A reply is given to the call of its xid if that one still waits, and is only acknowledged otherwise; no other call changes. |
| `RpcSteps.ReturnHandsOver` | rpc/rpc.cc:287-323 | A call that ends hands over what its entry holds, leaves no entry, and acknowledges its xid, answered or timed out. |
| `RpcSteps.BindLearnsNonce` | rpc/rpc.cc:146-160 | A successful bind binds the client to the nonce that came back in the reply. |
| `RpcSteps.CancelFailsAll` | rpc/rpc.cc:163-186 | cancel fails every call not yet returned, also those already answered, and no call begins afterwards. |
| `RpcSteps.FirstXid` | rpc/rpc.cc:101-129 | The first call of a client has xid 1, names no instance and acknowledges nothing but xid 0. |
| `RpcSteps.RestartForgets` | rpc/rpc.cc:411-432 | A restarted server has a new nonce, no window, no mark and no handler running; messages under way stay. |
| `RpcSteps.FinishAnswers` | rpc/rpc.cc:586-628 | A handler that ends sends its reply once and saves the same bytes in the entry of its request. |
| `RpcSteps.AwaitedCanComplete` | rpc/rpc.cc:498-643 | In every state of every run with the documented check, a call that waits at the present instance can come back with the result of its handler within four steps, whether its handler has not begun, is running, or has ended and the reply was lost. |
| `RpcLiteral.LiteralCallKeeps` | rpc/rpc.cc:660-707 | A call of the check as written that meets neither the hazard nor the condition for passing the end does not pass it, keeps the window invariant and accepts no xid twice. |
| `RpcLiteral.LiteralStep` | rpc/rpc.cc:660-707 | Every step of the system with the check as written, on either kind of list, but a hazardous or an overrunning delivery stays defined and keeps that invariant; deliveries that pass the end are steps too, into an undefined state. |
| `RpcLiteral.OverrunsIffPastEnd` | rpc/rpc.cc:683-701 | In a state that keeps the invariant, a delivery passes the end exactly under a condition on mark, window and request. |
| `RpcLiteral.HazardRunsTwice` | rpc/rpc.cc:660-707 | On either kind of list a hazardous delivery starts the handler a second time within the same server instance. |
| `RpcLiteral.LiteralAtMostOnceIff` | rpc/rpc.cc:660-707 | Every run of the system with the check as written stays defined and starts no request twice within an instance if and only if no delivery passes the end and none of a request this instance has started before, which the history tells, meets the hazard. |
| `RpcLiteral.CircularAtMostOnceIff` | rpc/rpc.cc:660-707 | With a circular list every run is defined, and it starts no request twice within an instance if and only if no delivery of a request this instance has started before meets the hazard of that list. |
| `RpcCounterexample.SkippedEntryRunsTwice` | rpc/rpc.cc:697-700 | A reachable state of the literal system in which a handler has run twice because erase and increment stepped over its entry. |
| `RpcCounterexample.RequestAtMarkRunsTwice` | rpc/rpc.cc:672-679 | A reachable state of the literal system in which a handler has run twice because a late duplicate equal to the mark was not refused. |
| `RpcCounterexample.FirstCallMovesPastEnd` | rpc/rpc.cc:683-701 | A reachable undefined state of the literal system after one bind and one call: with the bind alone in the window, the call that acknowledges it moves the iterator past the end. |
| `RpcCounterexample.OrdinaryClientRunsTwice` | rpc/rpc.cc:672-679 | With a circular list, a reachable state in which a client that binds once and calls one at a time has had a call executed twice: a late duplicate of the call the mark stands at. |
| `RpcOneBind.OneBindClientIsNeverServed` | rpc/rpc.cc:683-701 | In the defined part of every run of the literal system, for every client that sends a single bind request, as the lock, extent and group clients do: no handler of any other of its requests is started. |
| `RpcOneBind.FirstRequestEndsRun` | rpc/rpc.cc:683-701 | The reason: the first other request of such a client to reach the instance it is meant for passes the end, and the run is undefined from there. |
| `Codec.BeBack` | rpc/rpc.cc:818-827 | A number below the range of its width is read back from its big-endian bytes, whatever follows. |
| `Codec.RoundTrip` | rpc/marshall.h:211-259 | A value of any type, nested vectors and maps included, is read back as written, leaving exactly the bytes behind it and ok as it was. |
| `Codec.RoundTripAll` | rpc/marshall.h:211-259 | The same for a sequence of values such as the arguments of a call. |
| `Codec.ReadsNoFurther` | rpc/rpc.cc:891-991 | A read that ends with ok looked only at the bytes it consumed: with anything behind them it returns the same value and leaves that unread; and ok is never regained. |
| `Codec.PrefixDecodesIffWhole` | rpc/rpc.cc:881-900 | A prefix of a marshalled message decodes with ok set exactly when it is the whole message, and then yields the values and leaves nothing. |
| `Codec.EncodingIsPrefixFree` | rpc/marshall.h:211-259 | No message is a proper prefix of another of the same types, so values need no separators. |
| `Codec.EntriesBack` | rpc/marshall.h:245-259 | The loop that inserts decoded pairs into a map rebuilds a map with distinct keys entry for entry. |
| `Codec.ScalarBack` | rpc/rpc.cc:781-850 | Every scalar operator's bytes are read back to the value. |
| `Codec.ScalarLayout` | rpc/rpc.cc:781-850 | The bytes themselves: booleans are 1 or 0, numbers go high byte first, a string follows its length as a word. |
| `Codec.WordLayout` | rpc/rpc.cc:852-859 | The four bytes of a word, one by one. |
| `Codec.CountsLayout` | rpc/marshall.h:211-243 | A vector or map starts with the number of its items as a word. |
| `Codec.ItemsLayout` | rpc/marshall.h:211-218 | The items of a vector follow one another in order. |
| `Codec.EntriesLayout` | rpc/marshall.h:233-243 | Of each entry of a map the key comes first, then the value. |
| `Codec.ReadsBool` | rpc/rpc.cc:902-907 | Any byte but 0 reads as true. |
| `Codec.PadsWithZeros` | rpc/rpc.cc:891-900 | A number of which bytes are missing reads as if zeros followed, and loses ok. |
| `Codec.PutAssigns` | rpc/marshall.h:245-259 | Assigning to a key of a map replaces its entry or adds one, and keeps every other. |
| `Codec.DoneIffNothingLeft` | rpc/rpc.cc:881-889 | Bytes behind a whole message leave ok set, but the reading is done only when there are none. |
| `Marshall.Marshall.constructor` | rpc/marshall.h:53-58 | A new buffer has room for 1024 bytes and its position behind the header area. |
| `Marshall.Marshall.RawByte` | rpc/rpc.cc:756-766 | One byte is appended; a full buffer doubles, a buffer with room keeps every later byte. |
| `Marshall.Marshall.RawBytes` | rpc/rpc.cc:768-779 | A block is appended whatever its size; the capacity doubles or grows by the block, by the code's test. |
| `Marshall.Marshall.Pack` | rpc/rpc.cc:852-859 | Four bytes are appended, most significant first; within the capacity nothing else changes. |
| `Marshall.Marshall.Write` | rpc/rpc.cc:781-850 | Appending a value of any type appends exactly its wire bytes and keeps everything before, over any number of buffer growths. |
| `Marshall.Marshall.WriteVec` | rpc/marshall.h:211-218 | The vector loop writes the wire bytes of the vector. |
| `Marshall.Marshall.WriteMap` | rpc/marshall.h:233-243 | The map loop writes the wire bytes of the map. |
| `Marshall.Marshall.WriteAll` | rpc/rpc.h:185-217 | The arguments of a call are appended one after another. |
| `Marshall.Marshall.PackReqHeader` | rpc/marshall.h:83-96 | Packing the request header changes bytes 4 to 24 only: size area, body and position stay. |
| `Marshall.Marshall.PackReplyHeader` | rpc/marshall.h:98-108 | The same for the reply header, bytes 4 to 12. |
| `Marshall.Marshall.TakeBuf` | rpc/marshall.h:110-116 | The buffer is handed over with its contents and the object is left without one. |
| `Marshall.Unmarshall.Wrap` | rpc/marshall.h:136-136 | An input over received bytes starts at their beginning with ok set. |
| `Marshall.Unmarshall.FromContent` | rpc/marshall.h:137-157 | An input built from a string has the string to read, behind an empty header area. |
| `Marshall.Unmarshall.RawByte` | rpc/rpc.cc:891-900 | Reads the next byte, or clears ok and yields zero at the end. |
| `Marshall.Unmarshall.RawBytes` | rpc/rpc.cc:979-991 | Reads a block, or clears ok and reads nothing when fewer bytes are left. |
| `Marshall.Unmarshall.Unpack` | rpc/rpc.cc:861-868 | Reads four bytes as a number, with zeros for bytes that are missing. |
| `Marshall.Unmarshall.Read` | rpc/rpc.cc:902-978 | Reading a value of any type returns what the wire format says and moves the position accordingly, failures included. |
| `Marshall.Unmarshall.ReadVec` | rpc/marshall.h:220-231 | The vector loop reads the announced number of items. |
| `Marshall.Unmarshall.ReadMap` | rpc/marshall.h:245-259 | The map loop reads the announced number of pairs, later ones replacing earlier ones of the same key. |
| `Marshall.Unmarshall.ReadAll` | rpc/rpc.h:455-460 | The arguments of a call are read one after another. |
| `Marshall.Unmarshall.Done` | rpc/rpc.cc:881-889 | True exactly when all reads succeeded and nothing is left. |
| `Marshall.Unmarshall.TakeIn` | rpc/rpc.cc:870-879 | Takes over another input's bytes, positioned behind the header, ok if they reach that far. |
| `Marshall.Unmarshall.UnpackReqHeader` | rpc/marshall.h:175-187 | Reads the header from bytes 4 to 24 wherever the position was, leaves the position at the body, and loses ok if the frame is too short. |
| `Marshall.Unmarshall.UnpackReplyHeader` | rpc/marshall.h:189-198 | The same for the reply header. |
| `Marshall.ReqRoundTrip` | rpc/marshall.h:83-96 | A request header is read back from its bytes field by field. |
| `Marshall.ReplyRoundTrip` | rpc/marshall.h:98-108 | A reply header is read back from its bytes field by field. |
| `Marshall.ReqLayout` | rpc/marshall.h:83-96 | In a request frame the words at offsets 4, 8, 12, 16 and 20 are xid, procedure, client nonce, server nonce and xid_rep, and the body starts at 24. |
| `Marshall.ReplyLayout` | rpc/marshall.h:98-108 | In a reply frame the words at offsets 4 and 8 are xid and return code. |
| `Marshall.FrameAcceptedIffWhole` | rpc/rpc.cc:498-513 | Of all prefixes of a request frame only the whole one is taken for a request of those argument types, and then header and arguments come out as they went in. |
| `Marshall.MakeRequest` | rpc/rpc.cc:208-214 | Marshalling the arguments and then packing the header produces exactly header bytes and argument bytes behind the size area. |
| `Marshall.ReadRequest` | rpc/rpc.cc:499-513 | Unpacking the header and then the arguments takes a frame apart as specified. |
| `Connection.StepKeeps` | rpc/connection.cc:123-190 | Every step of concurrent senders, write callbacks with any amount written, failures and closing keeps: one owner of the buffer, whole PDUs and at most one partial one on the stream, each call's PDU there at most once, waiters counted. |
| `Connection.WriteContinues` | rpc/connection.cc:222-244 | The bytes a successful partial write puts out continue the frame where the previous write stopped, also when a blocked first write has already stamped the size. |
| `Connection.WriteOutcome` | rpc/connection.cc:222-244 | One write: a partial one moves the position by what went out, one that would block changes no position and is no failure, an error empties the buffer, and a buffer written whole is left alone. |
| `Connection.DiesIff` | rpc/connection.cc:66-220 | A step kills the connection exactly when it is closeconn, a failed read, or a failed write of bytes that were left to write; nothing revives it. |
| `Connection.WriteReadyWakesIff` | rpc/connection.cc:170-190 | write_cb wakes the owner exactly when its PDU is whole or the write has failed, and nobody else. |
| `Connection.FinishWakes` | rpc/connection.cc:162-165 | When the buffer becomes free, no call stays asleep without a notification. |
| `Delivery.DeliversInOrder` | rpc/connection.cc:123-296 | For any interleaving of senders and any splitting of reads and writes: what is delivered is a prefix of the PDUs written whole, unchanged and in order; each belongs to a call of its own; and a send that returned true has its PDU among them. |
| `Delivery.ReadKeeps` | rpc/connection.cc:193-220 | Each read callback keeps receiver and stream in step: what was read beyond the delivered PDUs is the start of the next one. |
| `Delivery.AcceptDecides` | rpc/connection.cc:213-219 | A PDU read in full that got_pdu accepts is delivered and the buffer emptied; one it refuses is neither, and is offered again without another read; an incomplete one is not offered. |
| `Delivery.ReadFailures` | rpc/connection.cc:249-293 | What kills the reading side: no header or part of one, an announced size above ten megabytes, or a failed read of the body; a body that is not there yet does not. |
| `Delivery.ReadDelivers` | rpc/connection.cc:193-220 | When the next PDU is whole on the stream, a callback whose reads get all of it and whose got_pdu accepts delivers exactly that PDU. |
| `Delivery.RunCatchesUp` | rpc/connection.cc:193-220 | From every state of every run with the receiver alive, reads alone lead to a state in which every PDU written whole has been delivered. |
| `Delivery.CallBegins` | rpc/connection.cc:123-160 | A new call of send fails at once on a dead connection, waits while the buffer is in use, and otherwise returns true with its PDU whole, waits for the rest to be written, or finds its write failed. |
| `Delivery.AwakeBegins` | rpc/connection.cc:128-134 | A call woken from its first wait sleeps again while the buffer is in use, and otherwise goes on as a new call does. |
| `Delivery.SendCanComplete` | rpc/connection.cc:151-166 | The owner of the buffer of a live connection is one write and its wake-up away from returning true with its PDU whole and the buffer free. |
| `Delivery.SizeAnnounced` | rpc/connection.cc:249-267 | At every PDU boundary the header found on the stream announces the size of the PDU that was sent. |
| `Delivery.NobodySleepsForNothing` | rpc/connection.cc:128-165 | A blocked call sleeps unnotified only while another owns the buffer, and the owner only while bytes remain to be written or closeconn was called. |
| `Delivery.DeadIsSilent` | rpc/connection.cc:128-150 | Once the connection is dead nothing more is written. |
| `Delivery.ReturnsTrueIffAlive` | rpc/connection.cc:161-166 | A send that returns says true exactly when the connection is alive at that moment, and then its PDU is whole on the stream. |
| `Delivery.FalseButSentIff` | rpc/connection.cc:156-166 | Whenever a send returns: it says false with its PDU whole on the stream if and only if it is the owner's wake-up on a dead connection with the buffer written whole. |
| `Delivery.FalseDoesNotMeanUnsent` | rpc/connection.cc:156-166 | Such a return is reachable for every PDU. |
| `Delivery.StrandedIff` | rpc/connection.cc:66-81 | In every state of every run, exactly when a send is asleep unnotified on a dead connection: closeconn was called while it slept and no spurious wake-up of its own has come since. No failed read or write strands anyone. |
| `Delivery.CloseStrandsOwner` | rpc/connection.cc:66-81 | An owner asleep unnotified on a dead connection stays asleep through the rest of every run, whatever both ends do, until a spurious wake-up of its own. |
| `Delivery.CloseCanStrand` | rpc/connection.cc:66-81 | closeconn, which notifies nobody, leads to that situation: it is reachable in two steps for every PDU. |
| `Channel.Channel.Send` | rpc/connection.cc:123-167 | send, run up to its first wait or its return, is the step of the sender model. |
| `Channel.Channel.SendAwake` | rpc/connection.cc:128-167 | send resumed from the first wait is the step of the model. |
| `Channel.Channel.SendNotice` | rpc/connection.cc:156-166 | send resumed from the second wait is the step of the model. |
| `Channel.Channel.SendResume` | rpc/connection.cc:146-166 | send resumed after a failed write is the step of the model. |
| `Channel.Channel.WriteCb` | rpc/connection.cc:170-190 | write_cb is the step of the model. |
| `Channel.Channel.CloseConn` | rpc/connection.cc:66-81 | closeconn is the step of the model, once. |
| `Channel.Channel.WriteSome` | rpc/connection.cc:222-244 | writepdu changes buffer and position and puts out bytes as specified. |
| `Channel.Channel.ReadSome` | rpc/connection.cc:246-296 | readpdu changes buffer and position and consumes stream bytes as specified. |
| `Channel.Channel.ReadCb` | rpc/connection.cc:193-220 | read_cb is the step of the receiver model and, when it fails, of the sender model. |
| `Fifo.NoWakeupIsLost` | rpc/fifo.h:56-92 | In every reachable state items come out in order, none lost or doubled, the limit holds, a dequeuer sleeps beside an item only when another has been woken, and an enqueuer beside a free place only when another has been woken. |
| `Fifo.StepKeeps` | rpc/fifo.h:56-92 | Every step, barging threads and spurious wake-ups included, keeps: while a dequeuer sleeps, items do not outnumber woken dequeuers; while an enqueuer sleeps, free places do not outnumber woken enqueuers. |
| `Fifo.PutOutcome` | rpc/fifo.h:56-72 | enq appends its item when there is room and signals a sleeping dequeuer; with none it sleeps when it is to block, and is turned away with nothing changed when it is not. |
| `Fifo.PutAgainOutcome` | rpc/fifo.h:60-71 | A call of enq that wakes leaves with its item in the queue when there is room, and otherwise sleeps on with it. |
| `Fifo.GetOutcome` | rpc/fifo.h:74-92 | deq takes the front item and signals a sleeping enqueuer exactly when the queue is limited and now below its limit, or sleeps on an empty queue. |
| `Fifo.BoundedQueue.Enqueue` | rpc/fifo.h:56-72 | enq up to its first wait is the step of the model and reports what the code returns. |
| `Fifo.BoundedQueue.EnqueueAgain` | rpc/fifo.h:60-71 | enq after a wake-up is the step of the model. |
| `Fifo.BoundedQueue.Dequeue` | rpc/fifo.h:74-92 | deq, first or after a wake-up, is the step of the model and takes the front item. |
| `ThrPool.StepKeeps` | rpc/thr_pool.cc:7-69 | Every step of adders, workers and destructor keeps: pills come last, no more than workers; as many workers have left as pills were taken; each thread is in one place. |
| `ThrPool.JobsGoFirst` | rpc/thr_pool.cc:38-68 | As soon as a worker has left, every accepted job has been taken and only pills remain in the queue. |
| `ThrPool.ShutdownIsComplete` | rpc/thr_pool.cc:38-51 | When all workers have left, each has taken exactly one pill, every accepted job has been taken and the queue is empty. |
| `ThrPool.NoWorkerIsStranded` | rpc/thr_pool.cc:38-51 | After the last pill was pushed, the queue holds one for each remaining worker, and none of them sleeps without another being awake. |
| `ThrPool.ShutdownCanComplete` | rpc/thr_pool.cc:38-51 | In every state of every run, once the last pill was pushed, the workers by themselves can do the jobs left and leave, so that all joins can return. |
| `ThrPool.QueueGrows` | rpc/thr_pool.cc:36-62 | Jobs, and pills once the pool is closing, come in at the back as long as there is room, also for an adder that had to wait. |
| `ThrPool.WorkersMove` | rpc/thr_pool.cc:6-18 | A worker that gets a job runs it until it has finished, one that gets a pill has left, and no other step moves a worker. |
| `ThrPool.RefusedIffFull` | rpc/thr_pool.cc:26-62 | The queue never holds more than a hundred jobs per worker, and a non-blocking addJob is refused exactly when it holds that many. |
| `SelectAio.SelectAio.constructor` | rpc/pollmgr.cc:128-142 | Initially only the pipe is watched and it is the highest descriptor. |
| `SelectAio.SelectAio.WatchFd` | rpc/pollmgr.cc:149-167 | Watching adds the descriptor to the right sets and keeps highfds the largest watched one. |
| `SelectAio.SelectAio.UnwatchFd` | rpc/pollmgr.cc:182-215 | Unwatching removes it, keeps highfds the largest watched descriptor, and tells whether nothing of it is watched any more. |
| `SelectAio.SelectAio.Rescan` | rpc/pollmgr.cc:197-209 | The rescan loop finds the largest watched descriptor. |
| `SelectAio.SelectAio.Report` | rpc/pollmgr.cc:243-256 | The reporting loop lists exactly the ready descriptors, ascending, the pipe left out: none lies beyond highfds. |
| `PollMgr.RemovedStaysSilent` | rpc/pollmgr.cc:57-68 | Once block_remove_fd has returned on the loop's signal, no callback of the descriptor is running or starts until it is added again. |
| `PollMgr.ReturnIsSafeIff` | rpc/pollmgr.cc:57-68 | In every run, when block_remove_fd returns, signalled or spuriously: no callback of the descriptor runs from then on until it is added again if and only if the loop is not in that callback at the moment of the return. |
| `PollMgr.NoneStartsAfterReturn` | rpc/pollmgr.cc:57-68 | After either kind of return no callback of the descriptor starts until it is added again. |
| `PollMgr.SilenceLasts` | rpc/pollmgr.cc:89-126 | A descriptor neither watched nor in the loop's hands stays so through every step but adding it. |
| `PollMgr.StepKeeps` | rpc/pollmgr.cc:57-126 | Every step keeps: a waiting removal is pending and its descriptor unwatched, a signalled one is silent, and the loop cannot sleep in select beside a pending one. |
| `PollMgr.NoRemoverIsForgotten` | rpc/pollmgr.cc:61-67 | A removal that waits is always pending, and the wake-up pipe is readable while the loop is in select. |
| `PollMgr.AnnounceWakes` | rpc/pollmgr.cc:97-103 | The head of the loop wakes every waiting removal when one is pending, and none otherwise. |
| `PollMgr.RemovalCanReturn` | rpc/pollmgr.cc:57-126 | In every state of every run, a waiting block_remove_fd can return on the loop's signal by steps of the loop and itself alone. |
| `PollMgr.DelKeepsOther` | rpc/pollmgr.cc:70-77 | del_callback of one flag keeps the callback registered exactly when the descriptor is still watched for the other, and touches no other descriptor. |
| `PollMgr.AddWatches` | rpc/pollmgr.cc:45-55 | add_callback registers the callback and watches the descriptor for the flag, besides what it was watched for. |
| `PollMgr.NextInOrder` | rpc/pollmgr.cc:113-124 | Ready descriptors are called back in order, those to read from first, each if it still has a callback. |
| `PollMgr.SpuriousReturnIsTooEarly` | rpc/pollmgr.cc:66-67 | Without a loop around the wait, a spurious wake-up lets the removal return while the callback is running: a reachable state. |
| `PollMgr.CanStartIff` | rpc/pollmgr.cc:111-126 | From any state, without the descriptor being added: its reading or its writing callback can still start if and only if a callback is registered and the descriptor is watched for that or in the loop's hand. |
| `PollMgr.StartsBesideRemovalIff` | rpc/pollmgr.cc:61-67 | From the beginning of block_remove_fd on, it can start if and only if a callback is registered and the loop already has the descriptor in hand for it. |
| `PollMgr.CallbackStartsBesideRemoval` | rpc/pollmgr.cc:61-67 | Such a state is reachable: block_remove_fd waits and the next step starts the writing callback. |
| `Closing.CanAbortIff` | rpc/connection.cc:170-175 | For a connection beside the manager, from any state and without its descriptor being added again: the assertion of write_cb that the connection is not dead can fail if and only if a callback is registered and the descriptor is watched for writing or in the loop's hand for it. |
| `Closing.CallbackWrites` | rpc/connection.cc:170-190 | When the loop calls the writing callback of a live connection with bytes left, the connection writes on where it stopped. |
| `Closing.AbortsBesideRemovalIff` | rpc/connection.cc:66-81 | From the beginning of block_remove_fd on, the assertion can fail if and only if a callback is registered and the loop already has the descriptor in hand for writing. |
| `PollMgr.Manager.AddCallback` | rpc/pollmgr.cc:45-55 | add_callback is the step of the model. |
| `PollMgr.Manager.DelCallback` | rpc/pollmgr.cc:70-77 | del_callback is the step of the model. |
| `PollMgr.Manager.HasCallback` | rpc/pollmgr.cc:79-87 | True exactly when this callback is registered and the flag is watched. |
| `PollMgr.Manager.RemoveBegins` | rpc/pollmgr.cc:61-66 | block_remove_fd up to its wait is the step of the model. |
| `PollMgr.Manager.RemoveEnds` | rpc/pollmgr.cc:66-68 | block_remove_fd from its wake-up on is the step of the model. |
| `PollMgr.Manager.Announces` | rpc/pollmgr.cc:97-103 | The critical section at the head of the loop is the step of the model and broadcasts exactly when a change was pending. |
| `Timing.AddIsExact` | rpc/rpc.cc:1057-1069 | Adding a timeout never loses time; the sum is normalised unless the parts of a second add up to exactly one second. |
| `Timing.AddTimespec` | rpc/rpc.cc:1057-1069 | The normalising loop computes the closed form. |
| `Timing.CmpOrders` | rpc/rpc.cc:1041-1055 | The comparison orders times by their total; it can only tell apart two forms of one time of which one holds a full second in its nanoseconds. |
| `Timing.RoundFits` | rpc/rpc.cc:217-276 | A round that is not the last ends within the timeout of the call. |
| `Timing.Doubling` | rpc/rpc.cc:283-283 | The factors double: 1, 2, 4, and so on. |
| `Timing.Waits` | rpc/rpc.cc:217-276 | Round k waits until 1000 * 2^k milliseconds after its start or until the timeout of the call, whichever comes first; the number of rounds n satisfies 1000 * (2^(n-1) - 1) <= timeout; no round but the last has ended with a reply, and the last has, or it ran to the timeout. |
| `DirText.DecRoundTrip` | yfs_client.cc:42-57 | Printing and parsing an inum is the identity on all 64-bit values. |
| `DirText.DecLayout` | yfs_client.cc:51-57 | An inum is printed in decimal, high digit first, without leading zeros. |
| `DirText.N2ILayout` | yfs_client.cc:42-49 | Parsing reads decimal digits up to the first other character. |
| `DirText.N2ISaturates` | yfs_client.cc:42-49 | A number beyond 64 bits reads as the largest inum. |
| `DirText.FindSpec` | yfs_client.cc:177-177 | find returns the first occurrence, or nothing exactly when there is none. |
| `DirText.SplitLoop` | yfs_client.cc:21-28 | The getline loop computes the specified pieces. |
| `DirText.SplitJoin` | yfs_client.cc:21-33 | Splitting slash-terminated pieces gives the pieces back. |
| `DirText.ContainsIffToken` | yfs_client.cc:177-177 | A slash-free name occurs in a directory text exactly when it occurs inside one name or one inum. |
| `DirText.FindInTokens` | yfs_client.cc:348-348 | A piece that no earlier piece contains is found at its own offset. |
| `DirText.EncodeInjective` | yfs_client.cc:218-236 | Different entry lists have different directory texts. |
| `DirText.NameFirstOccursAtOwnEntry` | yfs_client.cc:176-181 | In a directory built by create, every entry's name first occurs in the text at that entry's own offset. |
| `DirOps.ReaddirLoop` | yfs_client.cc:218-236 | The pairing loop computes the specified entries. |
| `DirOps.PairsTakeTurns` | yfs_client.cc:218-236 | Names and inums take turns, entry i being pieces 2i and 2i+1; an odd number of pieces runs past the end. |
| `DirOps.ReaddirAgrees` | yfs_client.cc:218-236 | readdir returns exactly the entry list the text stands for, in order. |
| `DirOps.LookupAgreesIff` | yfs_client.cc:143-155 | lookup agrees with searching the entry list if and only if the name is not the decimal text of an inum listed before it. |
| `DirOps.CreateExistsIff` | yfs_client.cc:176-178 | create answers EXIST exactly when the name is empty or contained in a listed name or in the decimal text of a listed inum, which is more often than when it is listed. |
| `DirOps.CreateAppends` | yfs_client.cc:180-181 | Otherwise the text becomes that of the list with the entry appended, names still first occur at their own entries, and the name was not listed. |
| `DirOps.AppendedText` | yfs_client.cc:180-181 | The text of a list with one entry more is the old text, the name, a slash, the inum and a slash. |
| `DirOps.UnlinkRemovesExactly` | yfs_client.cc:335-348 | For a listed name not taken for an inum, find and erase remove exactly its entry, the inum returned is that entry's, and the directory stays well formed. |
| `DirOps.UnlinkAgreesIff` | yfs_client.cc:335-355 | unlink's editing agrees with removal from the entry list if and only if the name is not taken for an inum. |
| `DirOps.EditSequencesAgree` | yfs_client.cc:158-361 | After any sequence of creates and unlinks the text is that of the entry list so edited, and every name first occurs at its own entry. |
| `FileData.WriteSpec` | yfs_client.cc:255-266 | A write yields length max(old, off + len) with the new bytes in range, zeros in the gap and old bytes elsewhere. |
| `FileData.ReadBack` | yfs_client.cc:291-291 | Reading the range just written returns the bytes written. |
| `FileData.ReadElsewhere` | yfs_client.cc:291-291 | A write leaves disjoint ranges of the old contents as they read before. |
| `FileData.DisjointWritesCommute` | yfs_client.cc:255-266 | Writes to disjoint ranges commute, gaps included. |
| `FileData.ResizeExact` | fuse.cc:188-199 | Growing by a write of zeros and shrinking by truncate, as setattr drives them, give exactly the requested size, old bytes kept and zeros added. |
| `FileData.TruncateReachesArgumentIff` | yfs_client.cc:311-312 | truncate erases from size minus its argument, so it reaches its argument as a length exactly for contents twice as long. |
| `Extents.Server.constructor` | extent_server.cc:11-27 | The server starts with an empty root directory that everybody may use. |
| `Extents.Server.PutExtent` | extent_server.cc:30-63 | put answers and changes the store as specified, contents and attributes keep the same keys and sizes. |
| `Extents.Server.GetExtent` | extent_server.cc:65-83 | get answers as specified and changes no contents, though it may insert key and group defaults. |
| `Extents.Server.GetAttrs` | extent_server.cc:85-111 | getattr answers as specified without a permission check. |
| `Extents.Server.SetAttrs` | extent_server.cc:113-134 | setattr changes mode, owner and group of an existing extent only. |
| `Extents.Server.RemoveExtent` | extent_server.cc:136-154 | remove takes contents and attributes together. |
| `Extents.Server.HasReadPerm` | extent_server.cc:257-271 | The read permission predicate, with the side effects of its map lookups. |
| `Extents.Server.HasWritePerm` | extent_server.cc:274-288 | The write permission predicate, likewise. |
| `Extents.Server.Authenticate` | extent_server.cc:330-342 | A key is accepted exactly when it equals the stored one, or is empty where none is stored. |
| `Extents.Server.InGroup` | extent_server.cc:307-315 | A user is in a group exactly when the group is known and lists him; an unknown group is entered empty. |
| `Extents.PermissionDigits` | extent_server.cc:257-288 | The permission bits as octal digits: reading needs a digit of 4 or more, writing one of 2, 3, 6 or 7, of others, of the owner for the owner, or of the group for its members; what has no record is open to every authentic caller. |
| `Extents.PrivateMode` | extent_server.cc:257-288 | After setattr to mode 0600 only the owner gets and puts; everybody else is answered NOACCESS. |
| `Extents.ReadOnlyMode` | extent_server.cc:257-288 | After setattr to mode 0444 every authentic caller gets, and nobody puts or removes, the owner included. |
| `Extents.AfterPut` | extent_server.cc:30-83 | What was put is got back by whoever may read; mode and owner are as before, or 0777 for a new record; the size is the length. |
| `Extents.AfterSetAttr` | extent_server.cc:85-134 | setattr answers by the permissions before the call; then getattr tells the new mode, owner and group and the old size. |
| `Extents.AfterRemove` | extent_server.cc:136-154 | remove answers by the permissions; after it get and getattr answer NOENT. |
| `Extents.RefusedChangesNothing` | extent_server.cc:30-154 | NOACCESS is answered exactly when the permission is missing; a refused call, get and getattr change nothing. |
| `LockServer.StepKeeps` | lock_server.cc:56-104 | Every step under the scoped-lock discipline, barging and spurious wake-ups included, keeps: at most one holder, the flag tells whether there is one, a free lock with sleepers has a thread on its way. |
| `LockServer.MutualExclusion` | lock_server.cc:56-104 | In every disciplined run at most one thread holds a lock. |
| `LockServer.NoLostWakeup` | lock_server.cc:72-80 | In every disciplined run, a free lock with sleeping threads has a woken one that will get it if it runs next. |
| `LockServer.ReleaseWakes` | lock_server.cc:98-103 | A release frees the lock and wakes exactly those the signal picks; whoever waits for another lock stays as he was. |
| `LockServer.WokenRetries` | lock_server.cc:72-80 | A thread that wakes, signalled or not, has the lock if it is free when it runs, and otherwise sleeps on with nothing changed. |
| `LockServer.StepIsLockStep` | lock_server.cc:56-104 | Every step is, for each lock, an acquisition of a free lock, a release by the holder, or nothing: the server refines a plain lock. |
| `LockServer.ReleaseKeepsIff` | lock_server.cc:98-103 | A release keeps the invariant if and only if nobody but the releasing thread holds the lock: the server does not check. |
| `LockServer.DuplicateReleaseBreaksExclusion` | lock_server.cc:98-103 | A run in which the only undisciplined step is a release delivered twice ends with two holders. |
| `LockServer.Table.StartAcquire` | lock_server.cc:64-70 | acquire from taking the mutex, first use of a lock included, is the step of the model. |
| `LockServer.Table.TestLoop` | lock_server.cc:73-80 | The loop test and what follows it are the step of the model. |
| `LockServer.Table.AfterWait` | lock_server.cc:73-80 | acquire after a wake-up is the step of the model. |
| `LockServer.Table.ReleaseLock` | lock_server.cc:98-103 | release is the step of the model, whoever calls it. |
| `LockRpc.GiveIsDisciplined` | server_slock.h:12-21 | Behind the at-most-once protocol with the documented check: a release about to touch the lock table is the first for its acquire, which still holds the lock. |
| `LockRpc.StepKeeps` | lock_client.cc:31-46 | Every step of clients, network, server and handlers keeps: from the work of its handler to that of its release an acquire is the holder in the table, handlers that sleep are those blocked or woken, and a release belongs to one finished acquire of the same instance. |
| `LockRpc.TableRunIsDisciplined` | lock_server.cc:56-104 | In every such run, with requests lost, duplicated and reordered and the server restarted, the lock table is at the end of a disciplined run of the lock server: the discipline follows from at-most-once execution and the scoped locks. |
| `LockRpc.ExclusionOverNetwork` | server_slock.h:12-21 | Mutual exclusion from end to end: no two calls whose acquire of one lock of the present instance has returned, and whose release has not been called, exist at the same time. |
| `FsProgram.TouchesLockedOnly` | yfs_client.cc:126-379 | Every operation calls the extent server only for extents it has locked before. |
| `FsProgram.Finishes` | yfs_client.cc:126-379 | No operation takes more than seven steps. |
| `SerialProof.StepKeeps` | server_slock.h:12-21 | Every micro-step keeps each operation on the track of its serial run: what it has seen so far is what it would see if run alone at its commit. |
| `SerialProof.Serializable` | yfs_client.cc:126-379 | Any interleaving of lock, get, put, getattr, setattr and remove steps of any number of clients equals a serial run of the committed operations, results included; a store with no operation under way is exactly that serial store. |
| `SerialProof.LogRespectsRealTime` | server_slock.h:12-21 | The serial order respects real time: of two operations of a run, one that begins after the other has finished comes behind it in the log, each with its own result. |
| `FsMeaning.CreateAllOrNothing` | yfs_client.cc:158-201 | create on an unused inum appends the entry and makes the extent, or changes nothing, with the code's answer in each case. |
| `FsMeaning.UnlinkAlone` | yfs_client.cc:320-361 | unlink removes entry and extent; when the caller may not write the extent the entry is gone all the same, the extent is orphaned and the answer is NOACCESS; otherwise nothing changes. |
| `FsAnswers.LookupAlone` | yfs_client.cc:126-155 | lookup, run alone: changes nothing; NOACCESS, IOERR for a missing directory, the inum of the entry of that name, or NOENT when there is none. |
| `FsAnswers.ReaddirAlone` | yfs_client.cc:203-241 | readdir, run alone: changes nothing; NOACCESS, IOERR, or the entries in order. |
| `FsAnswers.CreateOverExisting` | yfs_client.cc:158-201 | create on an inum that has an extent is not all or nothing: the entry is added; if the caller may not write the extent the answer is NOACCESS with the entry left, otherwise its contents are lost. |
| `FsAnswers.ReadAlone` | yfs_client.cc:275-293 | read, run alone: changes nothing; NOACCESS, NOENT, an exception past the end, or the bytes asked for, as many as there are. |
| `FsAnswers.WriteAlone` | yfs_client.cc:243-273 | write, run alone: OK with this file alone changed, new bytes at the offset, zeros in the gap and old bytes elsewhere; otherwise NOENT or NOACCESS and nothing changed. |
| `FsAnswers.TruncateAlone` | yfs_client.cc:295-318 | truncate, run alone: cuts its argument off the end of this file, with NOACCESS, NOENT and the exception for more than there is. |
| `FsAnswers.ChmodAlone` | yfs_client.cc:363-379 | chmod, run alone: the mode of this file changes, contents, owner and group stay; otherwise NOENT or NOACCESS and nothing changed. |
| `FsAnswers.ReadAfterWrite` | yfs_client.cc:243-293 | Reading the range of a write that answered OK gives the bytes written, to anyone who may read. |
| `FsAnswers.LookupAfterCreate` | yfs_client.cc:126-201 | After a create that answered OK, lookup of the name gives its inum, to anyone who may read the directory. |
| `FsAnswers.LookupAfterUnlink` | yfs_client.cc:126-361 | After an unlink of a listed name, lookup of it answers NOENT, unless the name is the decimal text of an inum still listed. |
| `FsMeaning.CreateKeepsFs` | yfs_client.cc:158-201 | create keeps the file system: well-formed directories, no dangling entry, no inum listed twice, children ranked after parents. |
| `FsMeaning.UnlinkKeepsFs` | yfs_client.cc:320-361 | unlink keeps it, permission failures included. |
| `FsMeaning.OperationKeepsFs` | yfs_client.cc:126-379 | So does every whole operation, whatever its answer. |
| `FsSystem.FsRunKeeps` | yfs_client.cc:126-379 | Every reachable state of concurrent clients keeps the file system in its serial store and its operations true to what they have read. |
| `FsSystem.FreeDirectoriesAreSound` | yfs_client.cc:158-201 | In every reachable state a directory whose lock is free is well formed, each inum it lists has an extent, and is listed nowhere else in a free directory. |
| `FsTheorems.HeldBelowTarget` | yfs_client.cc:161-162 | A blocked client waits for a lock ranked above every lock it holds. |
| `FsTheorems.NoWaitCycle` | yfs_client.cc:322-356 | No reachable state has a cycle of clients each waiting for a lock the next one holds. |
| `FsTheorems.NeverStuck` | lock_server.cc:62-80 | As long as an operation is under way, some step of one under way is possible. |
| `FsProgress.OperationsEnd` | server_slock.h:12-21 | However the clients are scheduled: once no operation begins any more they take no more steps than a number known beforehand, and a step is possible until every lock is free and every client idle. |
| `FsProgress.BegunIsCommitted` | yfs_client.cc:126-379 | From its begin on, an operation is under way until it is in the log: none is dropped. |
| `FsTheorems.AllocationOrderRanks` | fuse.cc:385-386 | When no create reuses an inum mentioned before, allocation time ranks every created inum after its directory. |
| `FsTheorems.NewInumsSuffice` | fuse.cc:385-386 | From the empty root the server starts with, every run whose creates pick inums no earlier operation mentioned, with slash-free names and searches for names not mistaken for inums, meets all that the theorems about runs ask for: the ranking is the order of allocation, and each inum is unused when its create begins. |
| `FsTheorems.CreatedStays` | yfs_client.cc:158-201 | An entry whose create answered OK stays listed through every later operation but an unlink of it or a create of the directory itself. |
| `FsTheorems.NoUpdateLost` | yfs_client.cc:158-361 | In every reachable state a directory whose lock is free lists every such entry: concurrent directory updates are not lost. |
| `FsTheorems.AtMostOneCreateSucceeds` | yfs_client.cc:158-201 | Of two creates of one name in one directory, however interleaved, both answer OK only if the entry was dropped in between. |

## Left out

- Kernel handlers of fuse.cc and main programs: foreign interface; only the size branch of setattr appears, in FileData.
- Sockets, select, pipes, name resolution and the accept loop: foreign calls; reads and writes are arbitrary amounts, select reports arbitrary subsets.
- EPollAIO: never instantiated.
- Group administration, key registration, isadmin, has_execute_perm: plain map updates; the permission predicates the operations use are in Extents. FsProgram fixes keys and groups per caller.
- getfile, getdir, chuid, chgid: like chmod and readdir without new behaviour.
- Attribute times, and the owner and group of a record that put creates: put leaves the latter uninitialised (extent_server.cc:39-45), the model has 0.
- Connection reference counts and buffer lifetimes: the path for an old server instance returns without decref (rpc/rpc.cc:523-531), so no balance holds.
- conns_ and which connection a reply takes: the network model loses and reorders replies anyway.
- Clients with nonce 0, which ask for no at-most-once treatment, and the lossy-test duplicate request.
- Wrap-around of 32-bit xids, lengths and buffer capacities; string lengths near 2^32 in the bound test of rpc/rpc.cc:982; files of 2^31 bytes and more.
- Reads with an offset past the end of the file: replace throws there (yfs_client.cc:291); ReadText says None.
- n2i on pieces with leading blanks or signs, or that are no number: N2I reads leading digits, which is all a directory made by create holds.
- What iterators do once past the end (rpc/rpc.cc:697-700, yfs_client.cc:153, yfs_client.cc:346): undefined. A delivery that passes the end leads to an undefined state, where the run ends, or goes round on a circular list; a lookup or unlink that does ends in a crash.
- free_reply_window (rpc/rpc.cc:731): only run when a server object is destroyed.
- Failures of calls inside file system operations: a lost call is retried by the RPC layer, a timed-out one ends the operation in the middle.
- Progress of the lock server under load: acquire blocks a pool thread and the pool has six.
- pthread_cond_signal waking more than one thread: the model of the queue wakes exactly one, the least it may do.
- What follows when the assertion at rpc/connection.cc:174 fails: the process aborts. Closing says exactly when it can; the sender model of Connection has no such step.
- Copying an initialised lock_entry, condition variable included, into the map (lock_server.cc:67-69): POSIX leaves the use of such a copy undefined; the model takes it to work.
- LockRpc: the bytes of acquire and release arguments are not tied to the operation, which is history beside the request; stat is left out.
- PDU headers that announce fewer bytes than a header takes: no marshalled message has them, and readpdu would ask for a negative amount.
- The dispatch loops of wait_loop and the destructor and worker loops of the pool are steps of a state machine rather than methods: their bodies run callbacks and wait between iterations, so no single method contract describes them.
- The fixed size of fd_set and of the callback array (128 descriptors).
- pthread_cond_timedwait on a deadline with a full second of nanoseconds: AddIsExact says exactly when one arises; the inner loop of call1 then spins on the error until the reply comes.
- ThrPool.ShutdownIsComplete: speaks of pools with at least one worker; a pool of none leaves its jobs in the queue.
- Marshall.Unmarshall.ReadMap: keeps entries in arrival order and not in key order; the two agree for maps written by the map operator.
