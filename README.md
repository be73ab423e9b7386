# Three-phase commit: coordinator and participant bookkeeping in Dafny

This project models a teaching implementation of three-phase commit (3PC).
One coordinator process drives transactions through three rounds:

1. CanCommit votes.
2. PreCommit votes.
3. COMMIT or an abort, then acknowledgements.

Participant processes keep per-transaction state and wait for an operator at
the console to vote or to confirm each request. Either side can be told to
crash and to recover. After a crash, the coordinator finishes the
transactions it had left unfinished. A recovering participant fetches the
coordinator's decision history and merges it into its own state.

The model keeps the bookkeeping and drops the transport:

- `protocol.dfy` (module `Protocol`) is the message vocabulary:
  - the eighteen message types and their wire strings;
  - the `(type, transaction id, data)` envelope and its JSON-object form, with encode, decode and their round trip;
  - the transaction statuses and the entries of the decision history.
- `text.dfy` (module `Text`) gives the meaning of the Python string methods the two processes use: `split(sep)`, `join`, `strip`, `lower` and `split()`.
- `coordinator_logic.dfy` (module `CoordinatorLogic`) holds the coordinator's decisions as functions:
  - how participant frames `KIND|pid|...` are read;
  - how votes and acknowledgements are tabulated and the missing ones filled in;
  - how the `key=value,...` console payload is parsed;
  - what a whole run of `execute_transaction` does to the tables;
  - which outcome recovery picks for each unfinished transaction;
  - what a whole recovery does.
- `coordinator.dfy` (module `CoordinatorNode`) is the coordinator as a class.
  - Its fields are the registry, the registration order, the transaction table and its creation order, the history and the crash flag.
  - Its methods are proved against those functions.
  - The loops that collect votes and acknowledgements, fill in missing ones and parse the payload are `for` loops with invariants.
- `participant_logic.dfy` (module `ParticipantLogic`) holds the participant's state as a value, a `Ledger`:
  - the `waited`, `prepared` and `aborted` sets and the `committed` map;
  - the vote, commit and abort slots and the crash flag.
  It also gives, as functions, what each handler, console command, timeout and history merge does to a `Ledger`.
- `participant.dfy` (module `ParticipantNode`) is the participant as a class with those fields.
  - Each handler updates the fields in place and is proved to do what its function says.
  - A message the participant would send to the coordinator is returned instead.
  - Lemmas connect the two sides: a vote or acknowledgement frame built by a participant is parsed by the coordinator and lands in the right table.

Inputs that the programs get from the outside world become parameters:

- the participants' replies to each send, and the frames that arrive while the coordinator waits;
- where a `crash` command typed during a run is first noticed;
- the results of the failure draws (`Faults`);
- whether the coordinator could be reached (`connected`);
- a fresh transaction id and the clock reading;
- the JSON parser (`parseJson`).

## Model

| member | source | states |
|---|---|---|
| Protocol.ParseType | protocol.py:8-30 | a wire string that is found names the type whose wire string it is |
| Protocol.ParseWire | protocol.py:8-30 | every one of the eighteen types is found again from its wire string (PRECOMMIT_ABORT travels as "PRECOMMITABORT") |
| Protocol.WireInjective | protocol.py:8-30 | two types with the same wire string are the same type |
| Protocol.ParseTypeFails | protocol.py:53 | the type lookup fails exactly on strings that are no type's wire string |
| Protocol.NewMessage | protocol.py:35-38 | type and id are kept; absent or empty data becomes the empty map, other data is kept |
| Protocol.Encode | protocol.py:40-46 | an encoded message has exactly the keys `msg_type`, `transaction_id`, `data` |
| Protocol.Decode | protocol.py:48-56 | a successful decode takes the type from `msg_type`'s wire string and the id from `transaction_id`; the data is the `data` object, or empty when `data` is missing or empty |
| Protocol.DecodeEncode | protocol.py:40-56 | decoding an encoded message gives the same type, id and data |
| Protocol.EncodeDecode | protocol.py:40-56 | re-encoding a decoded object reproduces its type and id values, and its data when that was not empty |
| Text.JoinSplit | coordinator.py:69-92 | joining the pieces of `split('|')` with '|' gives the text back |
| Text.WordsOfJoined | participant.py:546 | words joined by single spaces are split back into the same words by `split()` |
| CoordinatorLogic.ParseRequest | coordinator.py:65-128 | only the empty frame is ignored as empty; a frame is read as REGISTER, VOTE_RESPONSE, ACK_RESPONSE or HISTORY_REQUEST only when its first field is that kind, and otherwise is unhandled with that kind |
| CoordinatorLogic.ResponseFrameRoundTrip | coordinator.py:89-114 | a frame `KIND|pid|body` whose pid has no '|' is read back with that pid and the whole body, even when the body holds '|' |
| CoordinatorLogic.HistoryFrameRoundTrip | coordinator.py:126-128 | a `HISTORY_REQUEST|pid|...` frame is read back with its pid |
| CoordinatorLogic.RegisterFrameRoundTrip | coordinator.py:77-81 | a `REGISTER|pid|host|port` frame is read back with its three fields |
| CoordinatorLogic.ParseDecimal | coordinator.py:81 | a port written in decimal is read back by `int` as that number |
| CoordinatorLogic.RecordAllStep | coordinator.py:223-245 | writing a batch of replies one more reply at a time is the same as writing the batch into the vote tables |
| CoordinatorLogic.UnanimousAfterFill | coordinator.py:277-289 | with missing votes filled in as NO, `all(votes.values())` holds exactly when every listed participant voted and every vote is yes |
| CoordinatorLogic.ImmediateAcks | coordinator.py:374-390 | the immediate acknowledgements are entries only for listed participants, each of the expected type |
| CoordinatorLogic.WithLate | coordinator.py:110-124 | an acknowledgement frame that arrives later overrides the entry of its sender, whoever that is |
| CoordinatorLogic.CommitQuorum | coordinator.py:421-431 | when only listed participants have entries, the ACK_COMMIT count reaches the number of participants exactly when every listed participant acknowledged the commit |
| CoordinatorLogic.StrayAckFillsQuorum | coordinator.py:428-431 | an ACK_COMMIT from a sender outside the list counts: with one of two participants silent, the count still reaches two |
| CoordinatorLogic.FirstIndex | coordinator.py:992 | the position returned is that of the first '=' or the end of the text |
| CoordinatorLogic.ParsePair | coordinator.py:991-993 | a piece yields a key/value pair exactly when it holds '=' |
| CoordinatorLogic.CollectKeys | coordinator.py:989-993 | the parsed data has exactly the keys that the pieces name |
| CoordinatorLogic.CollectLastWins | coordinator.py:990-993 | a key takes the value of the last piece that names it |
| CoordinatorLogic.PayloadRefused | coordinator.py:982-995 | the console input is refused exactly when it is blank or no comma-separated piece holds '=' |
| CoordinatorLogic.CanCommitTallyIsLastVote | coordinator.py:223-281 | every listed participant has an entry in the CanCommit table, and it is yes exactly when that participant's last CanCommit vote was yes |
| CoordinatorLogic.Decide | coordinator.py:365-463 | a crash noticed before the acknowledgements are in leaves COMMITTING or ABORTING and no history entry; otherwise the acknowledgement table covers the participants, the status is COMMITTED only for a commit whose ACK_COMMIT count reaches the participant count, and exactly one history entry is added with that status and the original data |
| CoordinatorLogic.Run | coordinator.py:199-623 | a run that notices a crash appends no history and does not end COMMITTED or ABORTED; a finished run ends COMMITTED or ABORTED with exactly one entry carrying the id, the status and the data; the run returns true exactly when it committed |
| CoordinatorLogic.AfterCanCommit | coordinator.py:274-286 | after the CanCommit round the record is WAITED with the original data and participants |
| CoordinatorLogic.PreCommitPhase | coordinator.py:289-363 | the PreCommit round and what follows keep data and participants, and end as a run does (one entry exactly when no crash is noticed) |
| CoordinatorLogic.AfterPreCommit | coordinator.py:341-355 | after the PreCommit round the record is PREPARED and its PreCommit table is the filled tally |
| CoordinatorLogic.CommitNeedsUnanimity | coordinator.py:285-365 | PreCommit and COMMIT are reached only when the CanCommit table is all yes, and COMMIT only when the PreCommit table is all yes too; both tables cover every listed participant |
| CoordinatorLogic.CommitIff | coordinator.py:181-463 | when only listed participants acknowledge, a run commits exactly when no crash is noticed, both vote tables are all yes and every participant's last acknowledgement is ACK_COMMIT |
| CoordinatorLogic.DecideCommitIff | coordinator.py:365-463 | a broadcast ends COMMITTED exactly when it was a commit, no crash was noticed and every participant's last acknowledgement is ACK_COMMIT |
| CoordinatorLogic.FilledAcksAreLast | coordinator.py:417-427 | after the fill, each listed participant's entry is its last acknowledgement or TIMEOUT |
| CoordinatorLogic.CompleteCommit | coordinator.py:736-831 | other transactions are untouched; a crash leaves the history alone; otherwise one entry is appended and the status is ABORTED when the ACK_COMMIT count is below the number of registered participants, COMMITTED otherwise |
| CoordinatorLogic.CompleteAbort | coordinator.py:833-910 | other transactions are untouched; a crash leaves the status ABORTING and the history alone; otherwise the status is ABORTED and one ABORTED entry is appended |
| CoordinatorLogic.TriageOfUnfinished | coordinator.py:694-709 | for an unfinished transaction, recovery commits exactly when it was PREPARING or PREPARED with as many CanCommit votes as participants, all yes |
| CoordinatorLogic.TriageOfFilledVotes | coordinator.py:699-709 | for a CanCommit table filled over distinct participants, the size test holds exactly when no unlisted sender voted |
| CoordinatorLogic.TriageIgnoresPreCommitVotes | coordinator.py:699-705 | a PREPARED transaction whose PreCommit table holds a NO is committed by recovery |
| CoordinatorLogic.UnfinishedIds | coordinator.py:645-650 | recovery selects exactly the transactions whose status is WAITING, WAITED, PREPARING or PREPARED, once each |
| CoordinatorLogic.Finish | coordinator.py:694-729 | finishing one transaction changes no other record and appends at most one entry, for that transaction |
| CoordinatorLogic.FinishResolves | coordinator.py:694-709 | without a crash, a finished transaction is COMMITTED or ABORTED with one entry, COMMITTED only where the decision rule says commit |
| CoordinatorLogic.Resume | coordinator.py:661-729 | resuming keeps the set of transactions |
| CoordinatorLogic.ResumeKeepsOthers | coordinator.py:661-729 | transactions that are not resumed keep their records |
| CoordinatorLogic.ResumeAppendsOnly | coordinator.py:661-729 | recovery only appends to the history, and only entries for transactions it resumes |
| CoordinatorLogic.ResumeStaysUp | coordinator.py:657-731 | without a crash, the coordinator stays up and the history grows by one entry per resumed transaction |
| CoordinatorLogic.ResumeResolves | coordinator.py:661-729 | without a crash, the i-th resumed transaction is finished with its own entry at the i-th appended position |
| CoordinatorLogic.RecoverResolves | coordinator.py:639-731 | a recovery without crashes clears the crash flag, finishes every unfinished transaction in creation order with one entry each, and leaves every other transaction as it was |
| CoordinatorLogic.RecoverDecisions | coordinator.py:694-731 | after such a recovery, WAITING and WAITED transactions are ABORTED, and a COMMITTED one was PREPARING or PREPARED with a complete all-yes CanCommit table |
| CoordinatorNode.CollectVotes | coordinator.py:223-245 | the send loop writes into the run's tables exactly the replies of the listed participants |
| CoordinatorNode.FillMissing | coordinator.py:278-281 | the fill loop gives each listed participant without an entry the missing value and keeps every existing entry |
| CoordinatorNode.CollectAcks | coordinator.py:374-390 | the send loop keeps exactly the listed participants answered at once with the expected acknowledgement |
| CoordinatorNode.ParseTransactionData | coordinator.py:982-995 | the parser returns what `ParsePayload` describes |
| CoordinatorNode.CollectPieces | coordinator.py:989-993 | the pair loop builds the map the pieces describe, left to right |
| CoordinatorNode.ResponseFrameDelivered | coordinator.py:62-124 | a vote or acknowledgement frame built around an encoded message is served by a coordinator that is up, and hands that same message to the handler |
| CoordinatorNode.RunTransaction | coordinator.py:199-289 | the steps of a run produce exactly the effect `Run` describes |
| CoordinatorNode.PreCommitRound | coordinator.py:289-363 | phase 2 and what follows produce exactly `PreCommitPhase` |
| CoordinatorNode.Broadcast | coordinator.py:365-543 | phase 3 produces exactly `Decide` |
| CoordinatorNode.Coordinator.constructor | coordinator.py:15-24 | a new coordinator has no participants, transactions or history and is up |
| CoordinatorNode.Coordinator.HandleConnection | coordinator.py:62-146 | the table changes frame by frame: REGISTER with a numeric port adds or updates the sender and answers OK; a vote or acknowledgement for a known transaction is absorbed into its record; a history request is answered with the whole history; anything else changes nothing; while crashed, the transaction table never changes |
| CoordinatorNode.Coordinator.Register | coordinator.py:77-87 | a new participant joins at the end of the registration order; a known one gets its new address and keeps its place |
| CoordinatorNode.Coordinator.Deliver | coordinator.py:97-124 | a delayed vote or acknowledgement for an unknown transaction is ignored; CANCOMMIT_VOTE_YES/NO set the CanCommit vote, PRECOMMIT_VOTE_YES sets the PreCommit vote to yes and any other type sets it to no; an acknowledgement is stored with its type |
| CoordinatorNode.Coordinator.ExecuteTransaction | coordinator.py:181-623 | a crashed coordinator, or one without participants, returns false and changes nothing; otherwise the record, history and crash flag become what `Run` gives over the registered participants, and the result is whether it committed |
| CoordinatorNode.Coordinator.StartTransaction | coordinator.py:979-1005 | unparsable console input starts nothing; otherwise the parsed data is run as `ExecuteTransaction` does |
| CoordinatorNode.Coordinator.CompleteCommit | coordinator.py:736-831 | the tables become exactly `CompleteCommit` of the old tables over the registered participants |
| CoordinatorNode.Coordinator.CompleteAbort | coordinator.py:833-910 | the tables become exactly `CompleteAbort` of the old tables over the registered participants |
| CoordinatorNode.Coordinator.RecoverCoordinator | coordinator.py:639-731 | the tables become exactly `Recover` of the old tables; the registry and the creation order do not change |
| CoordinatorNode.Coordinator.ResumeAll | coordinator.py:661-729 | the recovery loop over the unfinished transactions produces exactly `Resume` |
| CoordinatorNode.Coordinator.FinishOne | coordinator.py:694-729 | one transaction is finished as `Finish` describes |
| CoordinatorNode.Coordinator.HandleCrash | coordinator.py:949-960 | the coordinator is crashed afterwards, and nothing else changes |
| CoordinatorNode.Coordinator.HandleRecover | coordinator.py:962-968 | only a crashed coordinator recovers, as `Recover` describes |
| ParticipantLogic.Classify | participant.py:350-366 | the reported status is COMMITTED, PREPARED, WAITED, ABORTED or UNKNOWN, in that priority, by which collections hold the transaction (each case is an if-and-only-if) |
| ParticipantLogic.StateReply | participant.py:346-369 | the reply is a STATE_RESPONSE for the queried id with exactly the keys `status` and `data`; the data is non-empty only for a committed transaction, where it is the committed data |
| ParticipantLogic.ValidTransaction | participant.py:371-374 | data is accepted exactly when it is not empty |
| ParticipantLogic.Receive | participant.py:122-148 | no message changes the four collections, and a reply concerns the received transaction and carries data only for a state query. COMMIT for a transaction that is not prepared is answered ACK_ABORT with nothing changed; otherwise it fills the commit slot with no reply. A state query is answered with `StateReply`. Only CanCommit/PreCommit fill the vote slot, only COMMIT the commit slot, only the three aborts the abort slot |
| ParticipantLogic.HandleRequest | participant.py:100-120 | a crashed participant, or an object that does not decode, gets no reply and no change; anything else is `Receive` |
| ParticipantLogic.Cast | participant.py:376-424 | nothing happens when the coordinator cannot be reached. A CanCommit YES adds the transaction to `waited`; a PreCommit YES moves it from `waited` to `prepared`; a NO in either round changes nothing. The frame is the vote of that round |
| ParticipantLogic.AckTo | participant.py:426-438 | an acknowledgement frame goes out exactly when the coordinator can be reached |
| ParticipantLogic.VoteAnswer | participant.py:546-547 | a vote command is understood exactly when it has three words, the last `yes` or `no`, and means yes exactly for `yes` |
| ParticipantLogic.AckAnswer | participant.py:586-591 | an ack command is understood exactly when it has two words, the last `commit` or `abort`, and means commit exactly for `commit` |
| ParticipantLogic.CommandOfWords | participant.py:546 | a command typed as lower-case words separated by single spaces is read back as those words |
| ParticipantLogic.VoteCommandUnderstood | participant.py:546-557 | a well-typed three-word vote command ending `yes`/`no` is understood as that answer |
| ParticipantLogic.AckCommandUnderstood | participant.py:586-591 | a well-typed two-word ack command ending `commit`/`abort` is understood as that answer |
| ParticipantLogic.VoteCommand | participant.py:544-582 | a malformed command, or one with no pending vote, changes nothing; otherwise the slot is emptied and the pending vote is cast for the command's round |
| ParticipantLogic.AckCommand | participant.py:584-630 | `ack commit` empties the commit slot and commits a prepared transaction with the pending data, changing no collection otherwise. `ack abort` prefers the commit slot over the abort slot, removes the transaction from `prepared` and adds it to `aborted`. Malformed commands, or nothing pending, change nothing; the matching acknowledgement is sent |
| ParticipantLogic.VoteTimeout | participant.py:178-222 | the timeout acts only when the vote slot still holds that transaction: it sends a NO and empties the slot; otherwise nothing happens |
| ParticipantLogic.CommitTimeout | participant.py:224-235 | only when the commit slot still holds that transaction: ACK_COMMIT is sent, a prepared transaction is committed with the pending data, and the slot is emptied |
| ParticipantLogic.AbortTimeout | participant.py:237-248 | only when the abort slot still holds that transaction: ACK_ABORT is sent, the transaction leaves `prepared` and joins `aborted`, and the slot is emptied |
| ParticipantLogic.SyncEffect | participant.py:473-486 | merging a history adds to `aborted` every id recorded ABORTED and removes from `prepared` every id recorded COMMITTED or ABORTED. `committed` gains the ids recorded COMMITTED, each with the data of its last such record. `waited`, the slots and the crash flag are untouched |
| ParticipantLogic.LastRecordWins | participant.py:474-482 | of two COMMITTED records of the same transaction, the later one's data is kept |
| ParticipantNode.Participant.constructor | participant.py:14-35 | a new participant has empty collections and slots and is up |
| ParticipantNode.Participant.HandleRequest | participant.py:100-120 | the reply and the new fields are exactly `HandleRequest` of the old ones |
| ParticipantNode.Participant.ProcessMessage | participant.py:122-148 | the reply and the new fields are exactly `Receive` of the old ones |
| ParticipantNode.Participant.HandleCanCommit | participant.py:150-176 | a failing draw answers CANCOMMIT_VOTE_NO and changes nothing; otherwise the request fills the vote slot and there is no reply |
| ParticipantNode.Participant.HandlePreCommit | participant.py:187-213 | a failing draw answers PRECOMMIT_VOTE_NO and changes nothing; otherwise the request fills the vote slot and there is no reply |
| ParticipantNode.Participant.HandleCommit | participant.py:250-275 | a transaction that is not prepared is answered ACK_ABORT and nothing changes; otherwise the request fills the commit slot with no reply |
| ParticipantNode.Participant.HandleAbort | participant.py:277-344 | each of the three abort requests fills the abort slot, and nothing else changes |
| ParticipantNode.Participant.HandleQueryState | participant.py:346-369 | the reply is `StateReply` of the current state, and nothing changes |
| ParticipantNode.Participant.SendCanCommitVote | participant.py:376-398 | the new fields and the frame are exactly `Cast` for the CanCommit round |
| ParticipantNode.Participant.SendPreCommitVote | participant.py:400-424 | the new fields and the frame are exactly `Cast` for the PreCommit round |
| ParticipantNode.Participant.HandleCanCommitVoteCommand | participant.py:544-562 | the new fields and the frame are exactly `VoteCommand` for the CanCommit round |
| ParticipantNode.Participant.HandlePreCommitVoteCommand | participant.py:564-582 | the new fields and the frame are exactly `VoteCommand` for the PreCommit round |
| ParticipantNode.Participant.HandleAckCommand | participant.py:584-630 | the new fields and the frame are exactly `AckCommand` |
| ParticipantNode.Participant.WaitForCanCommitVote | participant.py:178-185 | the new fields and the frame are exactly `VoteTimeout` for the CanCommit round |
| ParticipantNode.Participant.WaitForPreCommitVote | participant.py:215-222 | the new fields and the frame are exactly `VoteTimeout` for the PreCommit round |
| ParticipantNode.Participant.WaitForAckCommit | participant.py:224-235 | the new fields and the frame are exactly `CommitTimeout` |
| ParticipantNode.Participant.WaitForAckAbort | participant.py:237-248 | the new fields and the frame are exactly `AbortTimeout` |
| ParticipantNode.Participant.SyncHistory | participant.py:473-486 | the merge loop leaves the fields at `Sync` of the old ones, whose effect `SyncEffect` states |
| ParticipantNode.Participant.HandleCrash | participant.py:632-641 | the participant is crashed afterwards, and nothing else changes |
| ParticipantNode.Participant.HandleRecover | participant.py:643-665 | a participant that is not crashed, or that fails to register again, is unchanged; otherwise the history, when obtained, is merged in and the participant is up again |
| ParticipantNode.VoteReachesCoordinator | participant.py:384-395 | a vote the participant casts, framed as `VOTE_RESPONSE|pid|json`, is served by a coordinator that is up and carries the same message. It sets the sender's CanCommit or PreCommit vote to exactly the answer given |
| ParticipantNode.AckReachesCoordinator | participant.py:433-437 | an acknowledgement framed as `ACK_RESPONSE|pid|json` is served by a coordinator that is up, and is stored as that sender's acknowledgement |
| ParticipantNode.CommitConfirmed | participant.py:595-605 | a COMMIT for a prepared transaction followed by `ack commit` commits it with the COMMIT's data, takes it out of `prepared` and sends ACK_COMMIT |
| ParticipantNode.CommitRefusedByOperator | participant.py:607-621 | a COMMIT followed by `ack abort` leaves `committed` alone, aborts the transaction and sends ACK_ABORT |
| ParticipantNode.YesTwiceIsPrepared | participant.py:384-412 | voting YES in both rounds leaves the transaction prepared and not waited, with `committed` and `aborted` unchanged |

## Left out

- Sockets, JSON text and threads are not modelled.
  - Frames and messages are strings and key/value records. The JSON parser is the parameter `parseJson`.
  - Every handler runs atomically. The `self.lock` sections are therefore implicit.
- The coordinator's wait loops, sleeps and 60-second windows are not modelled.
  - A window closes as an event.
  - Frames that arrive during a wait are an input map (`late`) that the run applies when the wait ends.
  - The race between those frames and the table overwrites at coordinator.py:245 and coordinator.py:314 is not modelled beyond that.
- A `crash` typed while a run is in progress becomes an input.
  - `VoteCrash` and `AckCrash` say where it is first noticed.
  - Participants that register during a run are not modelled. Phase 3 sends to the participants registered when the run started.
- The participant's 30- and 60-second timers are not modelled. A timer firing is a call of the matching `WaitFor...` method.
- Failure injection is a parameter. `random.random()` and the failure rate become the booleans of `Faults`, and `_set_failure_rate` is not modelled.
- Identifiers, clocks and the console are parameters.
  - `uuid.uuid4()` is replaced by a transaction id argument.
  - `time.time()` is replaced by the `stamp` of a round.
  - Console input is an argument of the command handlers.
- The coordinator's `_send_message` guards are folded into the callers. A crashed coordinator sends nothing, so `_complete_abort` gets no immediate replies while crashed. The "unknown participant" exception never fires, because participants are never removed.
- `_query_participant_state` and the counts computed from its answers are not modelled.
  - Those counts feed only messages to the console.
  - They also feed the COMMITTING/COMMITTED and ABORTING/ABORTED branches of `_recover_coordinator`. Those branches are unreachable because of the status filter at coordinator.py:649. `Triage` still gives their outcome.
- The remaining socket code is not modelled: `_register_to_coordinator`, the request half of `_request_history_from_coordinator`, `start`, `stop`, the listening loops and `main`. Their outcomes enter the model as the `registered` flag and the `history` option of `HandleRecover`.
- Displays and command loops are not modelled: `_show_status`, `_show_data`, `_list_participants`, and the two command loops with their dispatch.
  - The command handlers are called directly.
  - The prefix tests of the dispatch (`startswith('cancommit vote ')` and so on) are not modelled.
- socket-server.py and socket-client.py are not part of this model. They are a standalone socket demo.
- Protocol.Decode accepts only a string `transaction_id`, whereas Python keeps any JSON value there. A non-empty `data` that is not an object is a decode error here, whereas Python keeps it as it is.
- Strings are modelled loosely. `lower()` maps ASCII letters only. `isspace()` covers ASCII whitespace and the four information separators. `int()` accepts an optional sign and ASCII digits, but not underscores or other Unicode digits.
- Participant history records are not checked for shape.
  - They carry a `TxStatus` rather than a status string.
  - A record with missing keys would stop the Python loop partway through. The model does not include that case.
- ParticipantNode.Participant.HandleAbort: the three abort handlers `_handle_cancommit_abort`, `_handle_precommit_abort` and `_handle_abort` are identical in effect and are one method here.
