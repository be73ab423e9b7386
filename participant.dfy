/** The participant process: its four transaction collections, its three
    pending slots and its crash flag as fields of one object, and the
    handlers that update them in place.  Every handler is proved against
    the function of ParticipantLogic that says what it does; what a
    handler would send to the coordinator is returned instead of sent. */
module ParticipantNode {
  import opened Protocol
  import opened ParticipantLogic
  import CoordinatorLogic
  import CoordinatorNode

  class Participant {
    var waited: set<string>
    var prepared: set<string>
    var committed: map<string, Data>
    var aborted: set<string>
    var pendingVote: Option<Pending>
    var pendingCommit: Option<Pending>
    var pendingAbort: Option<Pending>
    var crashed: bool

    /** The fields as one value. */
    function State(): Ledger
      reads this
    {
      Ledger(waited, prepared, committed, aborted, pendingVote, pendingCommit, pendingAbort, crashed)
    }

    /** A new participant knows no transaction and is up. */
    constructor ()
      ensures State() == Ledger({}, {}, map[], {}, None, None, None, false)
    {
      waited := {};
      prepared := {};
      committed := map[];
      aborted := {};
      pendingVote := None;
      pendingCommit := None;
      pendingAbort := None;
      crashed := false;
    }

    // -------------------------------------------------------------------
    // Messages from the coordinator

    /** `_handle_request` on the object the coordinator sent. */
    method HandleRequest(r: Record, f: Faults) returns (reply: Option<Message>)
      modifies this
      ensures Handled(State(), reply) == ParticipantLogic.HandleRequest(old(State()), r, f)
    {
      reply := None;
      if crashed {
        return;
      }
      var d := Decode(r);
      if d.Malformed? {
        return;
      }
      reply := ProcessMessage(d.msg, f);
    }

    /** `_process_message`: the failure draw, then dispatch on the type. */
    method ProcessMessage(m: Message, f: Faults) returns (reply: Option<Message>)
      modifies this
      ensures Handled(State(), reply) == Receive(old(State()), m, f)
    {
      if f.onReceive {
        if m.msgType == CanCommit {
          reply := Some(Bare(CanCommitVoteNo, m.txId));
        } else {
          reply := None;
        }
        return;
      }
      match m.msgType
      case CanCommit =>
        reply := HandleCanCommit(m, f.inHandler);
      case PreCommit =>
        reply := HandlePreCommit(m, f.inHandler);
      case Commit =>
        reply := HandleCommit(m);
      case CanCommitAbort =>
        HandleAbort(m);
        reply := None;
      case PreCommitAbort =>
        HandleAbort(m);
        reply := None;
      case Abort =>
        HandleAbort(m);
        reply := None;
      case QueryState =>
        var answer := HandleQueryState(m.txId);
        reply := Some(answer);
      case _ =>
        reply := None;
    }

    /** `_handle_cancommit`: a failing draw answers NO at once; otherwise
        the request waits in the vote slot for the operator. */
    method HandleCanCommit(m: Message, fails: bool) returns (reply: Option<Message>)
      modifies this
      ensures fails ==> reply == Some(Bare(CanCommitVoteNo, m.txId)) && State() == old(State())
      ensures !fails ==> reply.None? && State() == old(State()).(vote := Some(Pending(m.txId, m.data)))
    {
      if fails {
        return Some(Bare(CanCommitVoteNo, m.txId));
      }
      pendingVote := Some(Pending(m.txId, m.data));
      reply := None;
    }

    /** `_handle_precommit`: as for CanCommit, with a PreCommit NO. */
    method HandlePreCommit(m: Message, fails: bool) returns (reply: Option<Message>)
      modifies this
      ensures fails ==> reply == Some(Bare(PreCommitVoteNo, m.txId)) && State() == old(State())
      ensures !fails ==> reply.None? && State() == old(State()).(vote := Some(Pending(m.txId, m.data)))
    {
      if fails {
        return Some(Bare(PreCommitVoteNo, m.txId));
      }
      pendingVote := Some(Pending(m.txId, m.data));
      reply := None;
    }

    /** `_handle_commit`: a transaction that is not prepared is refused
        with ACK_ABORT and nothing changes; otherwise the request waits in
        the commit slot and there is no reply yet. */
    method HandleCommit(m: Message) returns (reply: Option<Message>)
      modifies this
      ensures m.txId !in old(prepared) ==> reply == Some(Bare(AckAbort, m.txId)) && State() == old(State())
      ensures m.txId in old(prepared) ==>
        reply.None? && State() == old(State()).(commit := Some(Pending(m.txId, m.data)))
    {
      if m.txId !in prepared {
        return Some(Bare(AckAbort, m.txId));
      }
      pendingCommit := Some(Pending(m.txId, m.data));
      reply := None;
    }

    /** `_handle_cancommit_abort`, `_handle_precommit_abort` and
        `_handle_abort`, which do the same thing: the request waits in the
        abort slot. */
    method HandleAbort(m: Message)
      modifies this
      ensures State() == old(State()).(abort := Some(Pending(m.txId, m.data)))
    {
      pendingAbort := Some(Pending(m.txId, m.data));
    }

    /** `_handle_query_state`: reads the collections in priority order and
        changes nothing. */
    method HandleQueryState(tx: string) returns (reply: Message)
      ensures reply == StateReply(State(), tx)
    {
      var status: string;
      var data: Data := map[];
      if tx in committed {
        status := "COMMITTED";
        data := committed[tx];
      } else if tx in prepared {
        status := "PREPARED";
      } else if tx in waited {
        status := "WAITED";
      } else if tx in aborted {
        status := "ABORTED";
      } else {
        status := "UNKNOWN";
      }
      reply := NewMessage(StateResponse, tx, Some(map[StatusKey := Str(status), PayloadKey := Obj(data)]));
    }

    // -------------------------------------------------------------------
    // Votes and acknowledgements sent to the coordinator

    /** The state update and the frame of
        `_send_cancommit_vote_to_coordinator`; `connected` says whether the
        coordinator could be reached. */
    method SendCanCommitVote(tx: string, yes: bool, connected: bool) returns (frame: Option<Outgoing>)
      modifies this
      ensures Sent(State(), frame) == Cast(old(State()), CanCommitRound, tx, yes, connected)
    {
      if !connected {
        return None;
      }
      var t: MessageType;
      if yes {
        waited := waited + {tx};
        t := CanCommitVoteYes;
      } else {
        t := CanCommitVoteNo;
      }
      frame := Some(VoteFrame(Bare(t, tx)));
    }

    /** The state update and the frame of
        `_send_precommit_vote_to_coordinator`. */
    method SendPreCommitVote(tx: string, yes: bool, connected: bool) returns (frame: Option<Outgoing>)
      modifies this
      ensures Sent(State(), frame) == Cast(old(State()), PreCommitRound, tx, yes, connected)
    {
      if !connected {
        return None;
      }
      var t: MessageType;
      if yes {
        if tx in waited {
          waited := waited - {tx};
        }
        prepared := prepared + {tx};
        t := PreCommitVoteYes;
      } else {
        t := PreCommitVoteNo;
      }
      frame := Some(VoteFrame(Bare(t, tx)));
    }

    // -------------------------------------------------------------------
    // Console commands

    /** `_handle_cancommit_vote_command`. */
    method HandleCanCommitVoteCommand(cmd: string, connected: bool) returns (frame: Option<Outgoing>)
      modifies this
      ensures Sent(State(), frame) == VoteCommand(old(State()), CanCommitRound, cmd, connected)
    {
      frame := None;
      var parts := CommandWords(cmd);
      if |parts| != 3 || (parts[2] != "yes" && parts[2] != "no") {
        return;
      }
      if pendingVote.None? {
        return;
      }
      var p := pendingVote.value;
      var yes := parts[2] == "yes";
      pendingVote := None;
      frame := SendCanCommitVote(p.txId, yes, connected);
    }

    /** `_handle_precommit_vote_command`. */
    method HandlePreCommitVoteCommand(cmd: string, connected: bool) returns (frame: Option<Outgoing>)
      modifies this
      ensures Sent(State(), frame) == VoteCommand(old(State()), PreCommitRound, cmd, connected)
    {
      frame := None;
      var parts := CommandWords(cmd);
      if |parts| != 3 || (parts[2] != "yes" && parts[2] != "no") {
        return;
      }
      if pendingVote.None? {
        return;
      }
      var p := pendingVote.value;
      var yes := parts[2] == "yes";
      pendingVote := None;
      frame := SendPreCommitVote(p.txId, yes, connected);
    }

    /** `_handle_ack_command`. */
    method HandleAckCommand(cmd: string, connected: bool) returns (frame: Option<Outgoing>)
      modifies this
      ensures Sent(State(), frame) == AckCommand(old(State()), cmd, connected)
    {
      frame := None;
      var parts := CommandWords(cmd);
      if |parts| != 2 || (parts[1] != "commit" && parts[1] != "abort") {
        return;
      }
      var ackCommit := parts[1] == "commit";
      var tx: string;
      if ackCommit {
        if pendingCommit.None? {
          return;
        }
        var p := pendingCommit.value;
        tx := p.txId;
        pendingCommit := None;
        if tx in prepared {
          committed := committed[tx := p.data];
          prepared := prepared - {tx};
        }
      } else {
        var p: Pending;
        if pendingCommit.Some? {
          p := pendingCommit.value;
          pendingCommit := None;
        } else if pendingAbort.Some? {
          p := pendingAbort.value;
          pendingAbort := None;
        } else {
          return;
        }
        tx := p.txId;
        if tx in prepared {
          prepared := prepared - {tx};
        }
        aborted := aborted + {tx};
      }
      frame := AckTo(if ackCommit then AckCommit else AckAbort, tx, connected);
    }

    // -------------------------------------------------------------------
    // Timeouts

    /** `_wait_for_cancommit_vote` once its time is up. */
    method WaitForCanCommitVote(tx: string, connected: bool) returns (frame: Option<Outgoing>)
      modifies this
      ensures Sent(State(), frame) == VoteTimeout(old(State()), CanCommitRound, tx, connected)
    {
      frame := None;
      if pendingVote.Some? && pendingVote.value.txId == tx {
        frame := SendCanCommitVote(tx, false, connected);
        pendingVote := None;
      }
    }

    /** `_wait_for_precommit_vote` once its time is up. */
    method WaitForPreCommitVote(tx: string, connected: bool) returns (frame: Option<Outgoing>)
      modifies this
      ensures Sent(State(), frame) == VoteTimeout(old(State()), PreCommitRound, tx, connected)
    {
      frame := None;
      if pendingVote.Some? && pendingVote.value.txId == tx {
        frame := SendPreCommitVote(tx, false, connected);
        pendingVote := None;
      }
    }

    /** `_wait_for_ack_commit` once its time is up. */
    method WaitForAckCommit(tx: string, connected: bool) returns (frame: Option<Outgoing>)
      modifies this
      ensures Sent(State(), frame) == CommitTimeout(old(State()), tx, connected)
    {
      frame := None;
      if pendingCommit.Some? && pendingCommit.value.txId == tx {
        frame := AckTo(AckCommit, tx, connected);
        if tx in prepared {
          committed := committed[tx := pendingCommit.value.data];
          prepared := prepared - {tx};
        }
        pendingCommit := None;
      }
    }

    /** `_wait_for_ack_abort` once its time is up. */
    method WaitForAckAbort(tx: string, connected: bool) returns (frame: Option<Outgoing>)
      modifies this
      ensures Sent(State(), frame) == AbortTimeout(old(State()), tx, connected)
    {
      frame := None;
      if pendingAbort.Some? && pendingAbort.value.txId == tx {
        frame := AckTo(AckAbort, tx, connected);
        if tx in prepared {
          prepared := prepared - {tx};
        }
        aborted := aborted + {tx};
        pendingAbort := None;
      }
    }

    // -------------------------------------------------------------------
    // Crash and recovery

    /** The history-merging loop of `_request_history_from_coordinator`. */
    method SyncHistory(history: seq<HistoryRecord>)
      modifies this
      ensures State() == Sync(old(State()), history)
    {
      for i := 0 to |history|
        invariant State() == Sync(old(State()), history[..i])
      {
        var r := history[i];
        if r.status == Committed {
          committed := committed[r.txId := Lift(r.data)];
          if r.txId in prepared {
            prepared := prepared - {r.txId};
          }
        } else if r.status == Aborted {
          aborted := aborted + {r.txId};
          if r.txId in prepared {
            prepared := prepared - {r.txId};
          }
        }
        assert history[..i + 1][..i] == history[..i];
      }
      assert history[..|history|] == history;
    }

    /** `_handle_crash`: the participant stops handling messages. */
    method HandleCrash()
      modifies this
      ensures State() == old(State()).(crashed := true)
    {
      if crashed {
        return;
      }
      crashed := true;
    }

    /** `_handle_recover`.  `registered` says whether registering again
        succeeded; `history` is the coordinator's history when it was
        obtained.  A failed registration leaves the participant crashed;
        otherwise the history, if any, is merged in and the participant is
        up again. */
    method HandleRecover(registered: bool, history: Option<seq<HistoryRecord>>)
      modifies this
      ensures !old(crashed) || !registered ==> State() == old(State())
      ensures old(crashed) && registered ==>
        State() == (if history.Some? then Sync(old(State()), history.value) else old(State())).(crashed := false)
    {
      if !crashed {
        return;
      }
      if !registered {
        return;
      }
      if history.Some? {
        SyncHistory(history.value);
      }
      crashed := false;
    }
  }

  // ---------------------------------------------------------------------
  // The two sides together

  /** A vote the participant casts, framed as it frames it around the JSON
      text of the encoded vote, reaches a coordinator that is up and writes
      exactly that answer into the table of its round. */
  lemma VoteReachesCoordinator(l: Ledger, round: Round, tx: string, yes: bool, pid: string, json: string,
                               parseJson: string -> Option<Record>, rec: CoordinatorLogic.TxRecord)
    requires '|' !in pid
    requires var s := Cast(l, round, tx, yes, true);
      parseJson(json) == Some(Encode(s.frame.value.m))
    ensures var m := Cast(l, round, tx, yes, true).frame.value.m;
      var frame := "VOTE_RESPONSE" + "|" + pid + "|" + json;
      && CoordinatorNode.Served(false, frame)
      && CoordinatorLogic.ParseRequest(frame) == CoordinatorLogic.VoteResponse(pid, json)
      && CoordinatorNode.Carried(json, parseJson) == Some(m)
      && m.txId == tx
      && CoordinatorNode.Absorb(rec, true, pid, m)
         == if round == CanCommitRound then rec.(votes := rec.votes[pid := yes])
            else rec.(votep := rec.votep[pid := yes])
  {
    var m := Cast(l, round, tx, yes, true).frame.value.m;
    CoordinatorNode.ResponseFrameDelivered("VOTE_RESPONSE", pid, json, m, parseJson);
  }

  /** An acknowledgement the participant sends reaches a coordinator that
      is up and is recorded as that participant's acknowledgement. */
  lemma AckReachesCoordinator(t: MessageType, tx: string, pid: string, json: string,
                              parseJson: string -> Option<Record>, rec: CoordinatorLogic.TxRecord)
    requires '|' !in pid
    requires parseJson(json) == Some(Encode(Bare(t, tx)))
    ensures var frame := "ACK_RESPONSE" + "|" + pid + "|" + json;
      && CoordinatorNode.Served(false, frame)
      && CoordinatorLogic.ParseRequest(frame) == CoordinatorLogic.AckResponse(pid, json)
      && CoordinatorNode.Carried(json, parseJson) == Some(Bare(t, tx))
      && CoordinatorNode.Absorb(rec, false, pid, Bare(t, tx))
         == rec.(acks := rec.acks[pid := CoordinatorLogic.Acked(t)])
  {
    CoordinatorNode.ResponseFrameDelivered("ACK_RESPONSE", pid, json, Bare(t, tx), parseJson);
  }

  /** A prepared transaction whose COMMIT is received and confirmed with
      `ack commit` is committed with the data the COMMIT carried and is no
      longer prepared; the coordinator is sent ACK_COMMIT. */
  lemma CommitConfirmed(l: Ledger, m: Message, cmd: string, connected: bool)
    requires m.msgType == Commit && m.txId in l.prepared
    requires AckAnswer(cmd) == Some(true)
    ensures var h := Receive(l, m, Faults(false, false));
      var s := AckCommand(h.after, cmd, connected);
      && h.reply.None?
      && s.after.committed == l.committed[m.txId := m.data]
      && s.after.prepared == l.prepared - {m.txId}
      && s.after.commit.None?
      && s.frame == AckTo(AckCommit, m.txId, connected)
  {
  }

  /** A COMMIT received and answered with `ack abort` aborts the
      transaction instead, even when it is prepared. */
  lemma CommitRefusedByOperator(l: Ledger, m: Message, cmd: string, connected: bool)
    requires m.msgType == Commit && m.txId in l.prepared
    requires AckAnswer(cmd) == Some(false)
    ensures var h := Receive(l, m, Faults(false, false));
      var s := AckCommand(h.after, cmd, connected);
      && s.after.committed == l.committed
      && s.after.aborted == l.aborted + {m.txId}
      && s.after.prepared == l.prepared - {m.txId}
      && s.after.abort == l.abort
      && s.frame == AckTo(AckAbort, m.txId, connected)
  {
  }

  /** Voting YES in both rounds, each reaching the coordinator, leaves the
      transaction prepared and no longer waited. */
  lemma YesTwiceIsPrepared(l: Ledger, tx: string)
    ensures var s1 := Cast(l, CanCommitRound, tx, true, true);
      var s2 := Cast(s1.after, PreCommitRound, tx, true, true);
      tx in s2.after.prepared && tx !in s2.after.waited
      && s2.after.aborted == l.aborted && s2.after.committed == l.committed
  {
  }
}
