/** The coordinator process: its registry of participants, its transaction
    table and decision history, the loops that collect and fill in votes
    and acknowledgements, and the handlers that change its tables.  Every
    method is proved against the decision functions of CoordinatorLogic. */
module CoordinatorNode {
  import opened Text
  import opened Protocol
  import opened CoordinatorLogic

  // ---------------------------------------------------------------------
  // The loops of a run, on values

  /** Sending to each listed participant in turn and classifying the reply
      that came back, if any, into the run's tables. */
  method CollectVotes(roster: seq<string>, replies: map<string, MessageType>, start: VoteTables) returns (t: VoteTables)
    requires Distinct(roster)
    ensures t == RecordAll(start, Restrict(replies, roster))
  {
    t := start;
    for i := 0 to |roster|
      invariant t == RecordAll(start, Restrict(replies, roster[..i]))
    {
      var pid := roster[i];
      RestrictStep(replies, roster, i);
      if pid in replies {
        var reply := replies[pid];
        RecordAllStep(start, Restrict(replies, roster[..i]), pid, reply);
        if reply == CanCommitVoteYes {
          t := t.(votes := t.votes[pid := true]);
        } else if reply == CanCommitVoteNo {
          t := t.(votes := t.votes[pid := false]);
        } else if reply == PreCommitVoteYes {
          t := t.(votep := t.votep[pid := true]);
        } else {
          t := t.(votep := t.votep[pid := false]);
        }
      }
    }
    assert roster[..|roster|] == roster;
  }

  lemma RestrictStep(replies: map<string, MessageType>, roster: seq<string>, i: nat)
    requires Distinct(roster) && i < |roster|
    ensures roster[i] !in Restrict(replies, roster[..i])
    ensures roster[i] in replies ==>
      Restrict(replies, roster[..i + 1]) == Restrict(replies, roster[..i])[roster[i] := replies[roster[i]]]
    ensures roster[i] !in replies ==> Restrict(replies, roster[..i + 1]) == Restrict(replies, roster[..i])
  {
    assert roster[..i + 1] == roster[..i] + [roster[i]];
  }

  /** Giving every listed participant without an entry the value
      `missing`. */
  method FillMissing<V>(m: map<string, V>, roster: seq<string>, missing: V) returns (r: map<string, V>)
    ensures r == Fill(m, roster, missing)
  {
    r := m;
    assert r == Fill(m, roster[..0], missing);
    for i := 0 to |roster|
      invariant r == Fill(m, roster[..i], missing)
    {
      FillStep(m, roster, i, missing);
      if roster[i] !in r {
        r := r[roster[i] := missing];
      }
    }
    assert roster[..|roster|] == roster;
  }

  lemma FillStep<V>(m: map<string, V>, roster: seq<string>, i: nat, missing: V)
    requires i < |roster|
    ensures var before := Fill(m, roster[..i], missing);
      Fill(m, roster[..i + 1], missing) == if roster[i] in before then before else before[roster[i] := missing]
  {
    assert roster[..i + 1] == roster[..i] + [roster[i]];
    assert ToSet(roster[..i + 1]) == ToSet(roster[..i]) + {roster[i]};
  }

  /** Sending the decision to each listed participant in turn and keeping
      the ones answered at once with `expected`. */
  method CollectAcks(roster: seq<string>, replies: map<string, MessageType>, expected: MessageType) returns (acks: map<string, AckValue>)
    ensures acks == ImmediateAcks(roster, replies, expected)
  {
    acks := map[];
    for i := 0 to |roster|
      invariant acks == ImmediateAcks(roster[..i], replies, expected)
    {
      var pid := roster[i];
      AcksStep(roster, replies, expected, i);
      if pid in replies && replies[pid] == expected {
        acks := acks[pid := Acked(expected)];
      }
    }
    assert roster[..|roster|] == roster;
  }

  lemma AcksStep(roster: seq<string>, replies: map<string, MessageType>, expected: MessageType, i: nat)
    requires i < |roster|
    ensures var before := ImmediateAcks(roster[..i], replies, expected);
      ImmediateAcks(roster[..i + 1], replies, expected)
        == if roster[i] in replies && replies[roster[i]] == expected then before[roster[i] := Acked(expected)] else before
  {
    assert roster[..i + 1] == roster[..i] + [roster[i]];
  }

  // ---------------------------------------------------------------------
  // The payload typed at the console

  /** `_start_transaction`'s parser: strip the line, refuse it when empty,
      then read the comma-separated pieces; a line without any piece that
      holds '=' is refused. */
  method ParseTransactionData(line: string) returns (d: Option<Payload>)
    ensures d == ParsePayload(line)
  {
    var text := Strip(line);
    if text == [] {
      return None;
    }
    var data := CollectPieces(Split(text, ','));
    if data == map[] {
      return None;
    }
    return Some(data);
  }

  /** Reading the pieces from left to right: a piece that holds '=' is
      split at its first '=' into a stripped key and a stripped value,
      which overwrites any earlier value of that key. */
  method CollectPieces(pieces: seq<string>) returns (data: Payload)
    ensures data == Collect(Pairs(pieces))
  {
    data := map[];
    for i := 0 to |pieces|
      invariant data == Collect(Pairs(pieces[..i]))
    {
      PairsStep(pieces, i);
      var piece := pieces[i];
      CollectStep(Pairs(pieces[..i]), ParsePair(piece));
      if '=' in piece {
        var at := FirstIndex(piece, '=');
        assert ParsePair(piece) == Some((Strip(piece[..at]), Strip(piece[at + 1..])));
        data := data[Strip(piece[..at]) := Strip(piece[at + 1..])];
      }
    }
    assert pieces[..|pieces|] == pieces;
  }

  lemma CollectStep(pairs: seq<Option<(string, string)>>, last: Option<(string, string)>)
    ensures Collect(pairs + [last]) == if last.Some? then Collect(pairs)[last.value.0 := last.value.1] else Collect(pairs)
  {
    assert (pairs + [last])[..|pairs|] == pairs;
  }

  lemma PairsStep(pieces: seq<string>, i: nat)
    requires i < |pieces|
    ensures Pairs(pieces[..i + 1]) == Pairs(pieces[..i]) + [ParsePair(pieces[i])]
  {
  }

  // ---------------------------------------------------------------------
  // Frames received on the coordinator's port

  /** What the coordinator writes back on a participant's connection. */
  datatype Reply =
    | RegisterOk                               // the bytes "OK"
    | HistoryReply(history: seq<HistoryRecord>) // a HISTORY_RESPONSE for transaction "HISTORY"

  /** A frame is acted on when it is not empty and, while the coordinator
      is crashed, only when it is a registration or a history request. */
  predicate Served(crashed: bool, data: string) {
    data != "" && (!crashed || ServedWhileCrashed(FrameKind(data)))
  }

  /** The message in the body of a vote or acknowledgement frame, when the
      body is a JSON object (as `parseJson` reads it) that decodes. */
  function Carried(body: string, parseJson: string -> Option<Record>): Option<Message> {
    match parseJson(body)
    case None => None
    case Some(r) => if Decode(r).Ok? then Some(Decode(r).msg) else None
  }

  /** A delayed vote (`vote`) or acknowledgement from `pid` written into
      its transaction's record. */
  function Absorb(rec: TxRecord, vote: bool, pid: string, m: Message): TxRecord {
    if vote then
      var t := RecordVote(VoteTables(rec.votes, rec.votep), pid, m.msgType);
      rec.(votes := t.votes, votep := t.votep)
    else rec.(acks := rec.acks[pid := Acked(m.msgType)])
  }

  /** A vote or acknowledgement frame as a participant builds it, around
      the JSON text of an encoded message, is acted on by a coordinator that
      is up and hands that very message to the handler. */
  lemma ResponseFrameDelivered(kind: string, pid: string, json: string, m: Message, parseJson: string -> Option<Record>)
    requires kind == "VOTE_RESPONSE" || kind == "ACK_RESPONSE"
    requires '|' !in pid
    requires parseJson(json) == Some(Encode(m))
    ensures var frame := kind + "|" + pid + "|" + json;
      && Served(false, frame)
      && ParseRequest(frame) == (if kind == "VOTE_RESPONSE" then VoteResponse(pid, json) else AckResponse(pid, json))
      && Carried(json, parseJson) == Some(m)
  {
    ResponseFrameRoundTrip(kind, pid, json);
    DecodeEncode(m);
  }

  // ---------------------------------------------------------------------
  // One run of execute_transaction

  /** The steps of a run over the participants `roster`: the record is
      created WAITING, CanCommit replies are collected into the run's own
      tables, frames arriving while waiting join the stored ones, missing
      votes become NO, and the CanCommit table chooses between the
      PreCommit round and CANCOMMIT_ABORT. */
  method RunTransaction(txId: string, data: Payload, roster: seq<string>, inp: RunInputs) returns (e: RunEffect)
    requires Distinct(roster)
    ensures e == Run(txId, data, roster, inp)
  {
    var rec := NewRecord(data, roster);
    var mine := CollectVotes(roster, inp.canCommit.replies, NoVotes());
    var stored := RecordAll(VoteTables(mine.votes, rec.votep), inp.canCommit.late);
    rec := rec.(votes := stored.votes, votep := stored.votep);
    if inp.voteCrash == CrashInCanCommitWait {
      return RunEffect(rec, [], true, false);
    }
    var votes := FillMissing(stored.votes, roster, false);
    rec := rec.(votes := votes, status := Waited);
    assert rec == AfterCanCommit(data, roster, inp);
    if AllTrue(votes) {
      e := PreCommitRound(txId, rec, roster, mine.votep, inp);
    } else {
      e := Broadcast(txId, rec, roster, false, inp.voteCrash != NoVoteCrash, inp.decision);
    }
  }

  /** Phase 2 of a run, once the CanCommit table is all yes: the status
      becomes PREPARING, the run's own PreCommit table (which holds any
      PreCommit-type replies to the CanCommit sends) collects the replies
      and replaces the stored one, missing votes become NO, and the
      PreCommit table chooses between COMMIT and PRECOMMIT_ABORT. */
  method PreCommitRound(txId: string, waited: TxRecord, roster: seq<string>, mineVotep: map<string, bool>, inp: RunInputs)
    returns (e: RunEffect)
    requires Distinct(roster)
    requires waited.votes == CanCommitTally(roster, inp)
    requires mineVotep == ImmediateFirst(roster, inp).votep
    ensures e == PreCommitPhase(txId, waited, roster, inp)
  {
    var rec := waited.(status := Preparing);
    var sent := CollectVotes(roster, inp.preCommit.replies, VoteTables(rec.votes, mineVotep));
    var stored := RecordAll(sent, inp.preCommit.late);
    rec := rec.(votes := stored.votes, votep := stored.votep);
    if inp.voteCrash == CrashInPreCommitWait {
      return RunEffect(rec, [], true, false);
    }
    var votep := FillMissing(stored.votep, roster, false);
    rec := rec.(votep := votep, status := Prepared);
    if inp.voteCrash == CrashAfterVoting {
      return RunEffect(rec, [], true, false);
    }
    e := Broadcast(txId, rec, roster, AllTrue(votep), false, inp.decision);
  }

  /** Phase 3 of a run: COMMIT (`commit`) or an abort goes to each
      participant, acknowledgements are collected and the missing ones
      marked as timeouts; a commit ends COMMITTED when the ACK_COMMIT
      count reaches the number of participants, anything else ends
      ABORTED, and one history entry is produced. */
  method Broadcast(txId: string, before: TxRecord, roster: seq<string>, commit: bool, crashedBefore: bool, ph: AckRound)
    returns (e: RunEffect)
    ensures e == Decide(txId, before, roster, commit, crashedBefore, ph)
  {
    var rec := before.(status := if commit then Committing else Aborting);
    if crashedBefore || ph.crash == CrashWhileSending {
      return RunEffect(rec, [], true, false);
    }
    var acks := CollectAcks(roster, ph.replies, if commit then AckCommit else AckAbort);
    acks := WithLate(acks, ph.late);
    rec := rec.(acks := acks);
    if ph.crash == CrashWhileWaiting {
      return RunEffect(rec, [], true, false);
    }
    acks := FillMissing(acks, roster, TimedOut);
    var outcome := Aborted;
    if commit {
      var successCount := CountAcks(acks, AckCommit);
      if successCount >= |roster| {
        outcome := Committed;
      }
    }
    rec := rec.(acks := acks, status := outcome);
    e := RunEffect(rec, [HistoryRecord(txId, outcome, before.data, ph.stamp)], false, outcome == Committed);
  }

  /** Recovery finishes the first pending transaction, then the rest. */
  lemma ResumeStep(t: Tables, registry: seq<string>, pending: seq<string>, rounds: string -> AckRound)
    requires pending != [] && forall i :: 0 <= i < |pending| ==> pending[i] in t.transactions
    ensures var next := Finish(t, pending[0], registry, rounds(pending[0]));
      && (forall i :: 0 <= i < |pending[1..]| ==> pending[1..][i] in next.transactions)
      && Resume(t, registry, pending, rounds) == Resume(next, registry, pending[1..], rounds)
  {
  }

  // ---------------------------------------------------------------------
  // The coordinator

  class Coordinator {
    /** Registered participants and their addresses. */
    var participants: map<string, Address>
    /** The registered participants in registration order. */
    var order: seq<string>
    /** Every transaction started, by id. */
    var transactions: map<string, TxRecord>
    /** The transaction ids in creation order. */
    var txOrder: seq<string>
    /** Finished transactions, oldest first. */
    var history: seq<HistoryRecord>
    var crashed: bool

    /** The orders list exactly the keys of their tables, once each. */
    ghost predicate Valid()
      reads this
    {
      && Distinct(order) && ToSet(order) == participants.Keys
      && Distinct(txOrder) && ToSet(txOrder) == transactions.Keys
    }

    /** The tables a run or a recovery reads and writes. */
    function State(): Tables
      reads this
    {
      Tables(transactions, history, crashed)
    }

    constructor ()
      ensures Valid()
      ensures participants == map[] && order == [] && transactions == map[] && txOrder == []
      ensures history == [] && !crashed
    {
      participants := map[];
      order := [];
      transactions := map[];
      txOrder := [];
      history := [];
      crashed := false;
    }

    /** `_handle_participant_connection` for one received frame.  An
        empty frame, or one refused while crashed, is ignored.  REGISTER
        adds or updates the participant (a port that is not a number ends
        the handler without a reply); a delayed vote or acknowledgement
        for a known transaction is written into its record; a history
        request is answered with the whole history.  While crashed the
        transaction table does not change. */
    method HandleConnection(data: string, parseJson: string -> Option<Record>) returns (reply: Option<Reply>)
      requires Valid()
      modifies this
      ensures Valid()
      ensures history == old(history) && crashed == old(crashed) && txOrder == old(txOrder)
      ensures var req := ParseRequest(data);
        var served := Served(old(crashed), data);
        && (if served && req.Register? && ParseInt(req.port).Some? then
              && participants == old(participants)[req.pid := Address(req.host, ParseInt(req.port).value)]
              && order == (if req.pid in old(participants) then old(order) else old(order) + [req.pid])
              && reply == Some(RegisterOk)
            else
              && participants == old(participants) && order == old(order)
              && reply == (if served && req.HistoryRequest? then Some(HistoryReply(old(history))) else None))
        && (if served && (req.VoteResponse? || req.AckResponse?) && Carried(req.body, parseJson).Some?
               && Carried(req.body, parseJson).value.txId in old(transactions) then
              var m := Carried(req.body, parseJson).value;
              transactions == old(transactions)[m.txId := Absorb(old(transactions)[m.txId], req.VoteResponse?, req.pid, m)]
            else transactions == old(transactions))
      ensures old(crashed) ==> transactions == old(transactions)
    {
      reply := None;
      if data == "" {
        return;
      }
      var parts := Split(data, '|');
      var kind := parts[0];
      if crashed && kind != "REGISTER" && kind != "HISTORY_REQUEST" {
        return;
      }
      if kind == "REGISTER" && |parts| >= 4 {
        var port := ParseInt(parts[3]);
        if port.None? {
          return;
        }
        Register(parts[1], parts[2], port.value);
        reply := Some(RegisterOk);
      } else if kind == "VOTE_RESPONSE" && |parts| >= 3 {
        var m := Carried(Join(parts[2..], '|'), parseJson);
        if m.Some? {
          Deliver(true, parts[1], m.value);
        }
      } else if kind == "ACK_RESPONSE" && |parts| >= 3 {
        var m := Carried(Join(parts[2..], '|'), parseJson);
        if m.Some? {
          Deliver(false, parts[1], m.value);
        }
      } else if kind == "HISTORY_REQUEST" && |parts| >= 2 {
        reply := Some(HistoryReply(history));
      }
    }

    /** A registration: a new participant is added at the end of the
        registration order; a known one gets its new address and keeps its
        place. */
    method Register(pid: string, host: string, port: int)
      requires Valid()
      modifies this
      ensures Valid()
      ensures participants == old(participants)[pid := Address(host, port)]
      ensures order == if pid in old(participants) then old(order) else old(order) + [pid]
      ensures transactions == old(transactions) && txOrder == old(txOrder)
      ensures history == old(history) && crashed == old(crashed)
    {
      if pid !in participants {
        assert ToSet(order + [pid]) == ToSet(order) + {pid};
        order := order + [pid];
      }
      participants := participants[pid := Address(host, port)];
    }

    /** A delayed vote (`vote`) or acknowledgement: written into the
        record of its transaction when that transaction is known, ignored
        otherwise.  CANCOMMIT_VOTE_YES and CANCOMMIT_VOTE_NO set the
        sender's CanCommit vote; PRECOMMIT_VOTE_YES sets its PreCommit vote
        to yes and any other type sets it to no; an acknowledgement is
        stored with its type. */
    method Deliver(vote: bool, pid: string, m: Message)
      modifies this
      ensures transactions == if m.txId in old(transactions)
                              then old(transactions)[m.txId := Absorb(old(transactions)[m.txId], vote, pid, m)]
                              else old(transactions)
      ensures participants == old(participants) && order == old(order) && txOrder == old(txOrder)
      ensures history == old(history) && crashed == old(crashed)
    {
      var txId := m.txId;
      if txId !in transactions {
        return;
      }
      var rec := transactions[txId];
      if vote {
        var t := m.msgType;
        if t == CanCommitVoteYes {
          rec := rec.(votes := rec.votes[pid := true]);
        } else if t == CanCommitVoteNo {
          rec := rec.(votes := rec.votes[pid := false]);
        } else if t == PreCommitVoteYes {
          rec := rec.(votep := rec.votep[pid := true]);
        } else {
          rec := rec.(votep := rec.votep[pid := false]);
        }
      } else {
        rec := rec.(acks := rec.acks[pid := Acked(m.msgType)]);
      }
      transactions := transactions[txId := rec];
    }
  
    /** `execute_transaction` with id `txId` (a fresh id in the source).
        A crashed coordinator, or one without participants, starts
        nothing.  Otherwise the run goes as `Run` describes, over the
        participants in registration order, and its effect is written
        into the tables: the transaction's record, the history entry of a
        finished run, and the crash flag.  The result is whether the
        transaction was committed. */
    method ExecuteTransaction(txId: string, data: Payload, inp: RunInputs) returns (ok: bool)
      requires Valid()
      modifies this
      ensures Valid()
      ensures participants == old(participants) && order == old(order)
      ensures old(crashed) || old(participants) == map[] ==>
        && !ok && transactions == old(transactions) && txOrder == old(txOrder)
        && history == old(history) && crashed == old(crashed)
      ensures !old(crashed) && old(participants) != map[] ==>
        var e := Run(txId, data, old(order), inp);
        && transactions == old(transactions)[txId := e.rec]
        && txOrder == (if txId in old(transactions) then old(txOrder) else old(txOrder) + [txId])
        && history == old(history) + e.logged
        && crashed == e.crashed
        && ok == e.committed
    {
      if crashed {
        return false;
      }
      if participants == map[] {
        return false;
      }
      var e := RunTransaction(txId, data, order, inp);
      Store(txId, e);
      ok := e.committed;
    }

    /** `_start_transaction` for the typed line `line`: text that does not
        parse as `key=value` pairs starts nothing; otherwise the run of
        `execute_transaction` on the parsed data is carried out to its end
        and its result is returned. */
    method StartTransaction(line: string, txId: string, inp: RunInputs) returns (outcome: Option<bool>)
      requires Valid()
      modifies this
      ensures Valid()
      ensures participants == old(participants) && order == old(order)
      ensures ParsePayload(line).None? ==>
        && outcome.None? && transactions == old(transactions) && txOrder == old(txOrder)
        && history == old(history) && crashed == old(crashed)
      ensures ParsePayload(line).Some? && (old(crashed) || old(participants) == map[]) ==>
        && outcome == Some(false) && transactions == old(transactions) && txOrder == old(txOrder)
        && history == old(history) && crashed == old(crashed)
      ensures ParsePayload(line).Some? && !old(crashed) && old(participants) != map[] ==>
        var e := Run(txId, ParsePayload(line).value, old(order), inp);
        && outcome == Some(e.committed)
        && transactions == old(transactions)[txId := e.rec]
        && history == old(history) + e.logged
        && crashed == e.crashed
    {
      var data := ParseTransactionData(line);
      if data.None? {
        return None;
      }
      var ok := ExecuteTransaction(txId, data.value, inp);
      outcome := Some(ok);
    }

    /** Writing what a run left behind into the tables: the record is
        filed under `txId` (a new id goes at the end of the creation
        order), the history entry of a finished run is appended and the
        crash flag is set as the run left it. */
    method Store(txId: string, e: RunEffect)
      requires Valid()
      modifies this
      ensures Valid()
      ensures transactions == old(transactions)[txId := e.rec]
      ensures txOrder == if txId in old(transactions) then old(txOrder) else old(txOrder) + [txId]
      ensures history == old(history) + e.logged && crashed == e.crashed
      ensures participants == old(participants) && order == old(order)
    {
      if txId !in transactions {
        assert ToSet(txOrder + [txId]) == ToSet(txOrder) + {txId};
        txOrder := txOrder + [txId];
      }
      transactions := transactions[txId := e.rec];
      history := history + e.logged;
      crashed := e.crashed;
    }

    /** `_complete_commit` for a transaction recovery resumes: COMMIT to
        every registered participant (a crash stops the sends), the
        acknowledgements are collected and the missing ones marked as
        timeouts, and the transaction ends COMMITTED when the ACK_COMMIT
        count reaches the number of registered participants, ABORTED
        otherwise, with one history entry. */
    method CompleteCommit(txId: string, ph: AckRound)
      requires Valid() && txId in transactions
      modifies this
      ensures Valid()
      ensures participants == old(participants) && order == old(order) && txOrder == old(txOrder)
      ensures State() == CoordinatorLogic.CompleteCommit(old(State()), txId, old(order), ph)
    {
      var table := transactions;
      var rec := table[txId];
      var down := crashed || ph.crash == CrashWhileSending;
      if down && order != [] {
        crashed := true;
        return;
      }
      var acks: map<string, AckValue> := map[];
      if !down {
        acks := CollectAcks(order, ph.replies, AckCommit);
        acks := WithLate(acks, ph.late);
      }
      if down || ph.crash == CrashWhileWaiting {
        transactions := table[txId := rec.(acks := acks)];
        crashed := true;
        return;
      }
      acks := FillMissing(acks, order, TimedOut);
      var successCount := CountAcks(acks, AckCommit);
      var outcome := if successCount < |order| then Aborted else Committed;
      transactions := table[txId := rec.(acks := acks, status := outcome)];
      history := history + [HistoryRecord(txId, outcome, rec.data, ph.stamp)];
    }

    /** `_complete_abort` for a transaction recovery resumes: the status
        becomes ABORTING, ABORT goes to every registered participant, and
        unless a crash is noticed the transaction ends ABORTED with one
        history entry, whatever the acknowledgements say. */
    method CompleteAbort(txId: string, ph: AckRound)
      requires Valid() && txId in transactions
      modifies this
      ensures Valid()
      ensures participants == old(participants) && order == old(order) && txOrder == old(txOrder)
      ensures State() == CoordinatorLogic.CompleteAbort(old(State()), txId, old(order), ph)
    {
      var table := transactions;
      var rec := table[txId].(status := Aborting);
      var acks: map<string, AckValue> := map[];
      if !crashed {
        acks := CollectAcks(order, ph.replies, AckAbort);
      }
      if crashed || ph.crash == CrashWhileSending {
        transactions := table[txId := rec.(acks := acks)];
        crashed := true;
        return;
      }
      acks := WithLate(acks, ph.late);
      if ph.crash == CrashWhileWaiting {
        transactions := table[txId := rec.(acks := acks)];
        crashed := true;
        return;
      }
      acks := FillMissing(acks, order, TimedOut);
      transactions := table[txId := rec.(acks := acks, status := Aborted)];
      history := history + [HistoryRecord(txId, Aborted, rec.data, ph.stamp)];
    }

    /** `_recover_coordinator`: the crash flag is cleared, the unfinished
        transactions (WAITING, WAITED, PREPARING, PREPARED) are finished
        one by one in creation order as `Triage` decides, and the flag is
        cleared again at the end. */
    method RecoverCoordinator(rounds: string -> AckRound)
      requires Valid()
      modifies this
      ensures Valid()
      ensures participants == old(participants) && order == old(order) && txOrder == old(txOrder)
      ensures State() == Recover(old(State()), old(order), old(txOrder), rounds)
    {
      var pending := UnfinishedIds(txOrder, transactions);
      if pending == [] {
        crashed := false;
        return;
      }
      crashed := false;
      assert State() == old(State()).(crashed := false);
      ResumeAll(pending, rounds);
      crashed := false;
    }

    /** The loop of `_recover_coordinator` over the pending transactions. */
    method ResumeAll(pending: seq<string>, rounds: string -> AckRound)
      requires Valid() && forall i :: 0 <= i < |pending| ==> pending[i] in transactions
      modifies this
      ensures Valid()
      ensures participants == old(participants) && order == old(order) && txOrder == old(txOrder)
      ensures State() == Resume(old(State()), old(order), pending, rounds)
    {
      ghost var start := State();
      assert pending[0..] == pending;
      for i := 0 to |pending|
        invariant Valid()
        invariant participants == old(participants) && order == old(order) && txOrder == old(txOrder)
        invariant transactions.Keys == start.transactions.Keys
        invariant Resume(State(), order, pending[i..], rounds) == Resume(start, order, pending, rounds)
      {
        ghost var before := State();
        FinishOne(pending[i], rounds(pending[i]));
        ResumeStep(before, order, pending[i..], rounds);
        assert pending[i..][1..] == pending[i + 1..];
      }
      assert pending[|pending|..] == [];
    }

    /** One transaction of a recovery, finished as `Triage` decides from
        its record as it stands. */
    method FinishOne(txId: string, ph: AckRound)
      requires Valid() && txId in transactions
      modifies this
      ensures Valid()
      ensures participants == old(participants) && order == old(order) && txOrder == old(txOrder)
      ensures State() == Finish(old(State()), txId, old(order), ph)
    {
      if Triage(transactions[txId]) == FinishCommit {
        CompleteCommit(txId, ph);
      } else {
        CompleteAbort(txId, ph);
      }
    }

    /** `_handle_crash`: a coordinator that is up goes down; nothing else
        changes. */
    method HandleCrash()
      modifies this
      ensures crashed
      ensures participants == old(participants) && order == old(order) && txOrder == old(txOrder)
      ensures transactions == old(transactions) && history == old(history)
    {
      if crashed {
        return;
      }
      crashed := true;
    }

    /** `_handle_recover`: only a crashed coordinator recovers. */
    method HandleRecover(rounds: string -> AckRound)
      requires Valid()
      modifies this
      ensures Valid()
      ensures participants == old(participants) && order == old(order) && txOrder == old(txOrder)
      ensures State() == if old(crashed) then Recover(old(State()), old(order), old(txOrder), rounds) else old(State())
    {
      if !crashed {
        return;
      }
      RecoverCoordinator(rounds);
    }
  }

}
