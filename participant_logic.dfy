/** A participant's bookkeeping, as functions of its state: the four
    per-transaction collections, the three single-slot pending requests,
    how a received message changes them, how vote and acknowledgement
    commands typed at the console are read and applied, what the timeout
    actions do, and how the coordinator's history is merged in after a
    crash. */
module ParticipantLogic {
  import opened Text
  import opened Protocol

  /** A request waiting for the operator: the transaction and its data. */
  datatype Pending = Pending(txId: string, data: Data)

  /** Everything a participant keeps: the transactions that voted yes in
      the CanCommit round (`waited`), those that voted yes in the PreCommit
      round (`prepared`), the committed ones with their data, the aborted
      ones, the three pending slots and the crash flag. */
  datatype Ledger = Ledger(
    waited: set<string>,
    prepared: set<string>,
    committed: map<string, Data>,
    aborted: set<string>,
    vote: Option<Pending>,
    commit: Option<Pending>,
    abort: Option<Pending>,
    crashed: bool)

  /** Two ledgers with the same collections and crash flag; only the
      pending slots may differ. */
  predicate SameBooks(a: Ledger, b: Ledger) {
    a.waited == b.waited && a.prepared == b.prepared && a.committed == b.committed
    && a.aborted == b.aborted && a.crashed == b.crashed
  }

  // ---------------------------------------------------------------------
  // State queries

  /** The status a participant reports for a transaction. */
  datatype LocalStatus = LocalCommitted | LocalPrepared | LocalWaited | LocalAborted | LocalUnknown

  function LocalStatusName(s: LocalStatus): string {
    match s
    case LocalCommitted => "COMMITTED"
    case LocalPrepared => "PREPARED"
    case LocalWaited => "WAITED"
    case LocalAborted => "ABORTED"
    case LocalUnknown => "UNKNOWN"
  }

  /** The reported status: the first collection holding the transaction,
      looking at committed, prepared, waited and aborted in that order. */
  function Classify(l: Ledger, tx: string): (s: LocalStatus)
    ensures s == LocalCommitted <==> tx in l.committed
    ensures s == LocalPrepared <==> tx !in l.committed && tx in l.prepared
    ensures s == LocalWaited <==> tx !in l.committed && tx !in l.prepared && tx in l.waited
    ensures s == LocalAborted <==> tx !in l.committed && tx !in l.prepared && tx !in l.waited && tx in l.aborted
    ensures s == LocalUnknown <==> tx !in l.committed && tx !in l.prepared && tx !in l.waited && tx !in l.aborted
  {
    if tx in l.committed then LocalCommitted
    else if tx in l.prepared then LocalPrepared
    else if tx in l.waited then LocalWaited
    else if tx in l.aborted then LocalAborted
    else LocalUnknown
  }

  const StatusKey: string := "status"
  const PayloadKey: string := "data"

  /** STATE_RESPONSE for a query: the status name and, for a committed
      transaction only, its data. */
  function StateReply(l: Ledger, tx: string): (m: Message)
    ensures m.msgType == StateResponse && m.txId == tx
    ensures m.data.Keys == {StatusKey, PayloadKey}
    ensures m.data[StatusKey] == Str(LocalStatusName(Classify(l, tx)))
    ensures tx in l.committed ==> m.data[PayloadKey] == Obj(l.committed[tx])
    ensures tx !in l.committed ==> m.data[PayloadKey] == Obj(map[])
  {
    var s := Classify(l, tx);
    var d := if s == LocalCommitted then l.committed[tx] else map[];
    NewMessage(StateResponse, tx, Some(map[StatusKey := Str(LocalStatusName(s)), PayloadKey := Obj(d)]))
  }

  /** `_validate_transaction`: data is acceptable when it is not empty. */
  function ValidTransaction(d: Data): (ok: bool)
    ensures ok <==> d != map[]
  {
    |d| > 0
  }

  // ---------------------------------------------------------------------
  // Messages from the coordinator

  /** The outcomes of the simulated failure draws for one message: the
      draw when the message is received, and the second draw inside the
      CanCommit and PreCommit handlers. */
  datatype Faults = Faults(onReceive: bool, inHandler: bool)

  /** A ledger after handling a message, and the immediate reply. */
  datatype Handled = Handled(after: Ledger, reply: Option<Message>)

  /** A reply without data. */
  function Bare(t: MessageType, tx: string): (m: Message)
    ensures m.msgType == t && m.txId == tx && m.data == map[]
  {
    NewMessage(t, tx, None)
  }

  /** `_process_message`.  A simulated failure answers a CanCommit with a
      NO and anything else with silence.  CanCommit and PreCommit (unless
      the handler's own failure draw fires, which answers NO) fill the
      vote slot and wait for the operator; COMMIT for a transaction that
      is not prepared is refused with ACK_ABORT, otherwise it fills the
      commit slot; the three aborts fill the abort slot; a state query is
      answered at once.  No message changes the four collections. */
  function Receive(l: Ledger, m: Message, f: Faults): (r: Handled)
    ensures SameBooks(r.after, l)
    ensures r.reply.Some? ==> r.reply.value.txId == m.txId && (r.reply.value.data == map[] || m.msgType == QueryState)
    ensures m.msgType == Commit && !f.onReceive ==>
      if m.txId in l.prepared then r == Handled(l.(commit := Some(Pending(m.txId, m.data))), None)
      else r == Handled(l, Some(Bare(AckAbort, m.txId)))
    ensures m.msgType == QueryState && !f.onReceive ==> r == Handled(l, Some(StateReply(l, m.txId)))
    ensures r.after.vote != l.vote ==> m.msgType in {CanCommit, PreCommit} && r.after.vote == Some(Pending(m.txId, m.data))
    ensures r.after.commit != l.commit ==> m.msgType == Commit && m.txId in l.prepared
    ensures r.after.abort != l.abort ==> m.msgType in {CanCommitAbort, PreCommitAbort, Abort}
  {
    var tx := m.txId;
    if f.onReceive then Handled(l, if m.msgType == CanCommit then Some(Bare(CanCommitVoteNo, tx)) else None)
    else
      match m.msgType
      case CanCommit =>
        if f.inHandler then Handled(l, Some(Bare(CanCommitVoteNo, tx)))
        else Handled(l.(vote := Some(Pending(tx, m.data))), None)
      case PreCommit =>
        if f.inHandler then Handled(l, Some(Bare(PreCommitVoteNo, tx)))
        else Handled(l.(vote := Some(Pending(tx, m.data))), None)
      case Commit =>
        if tx !in l.prepared then Handled(l, Some(Bare(AckAbort, tx)))
        else Handled(l.(commit := Some(Pending(tx, m.data))), None)
      case CanCommitAbort => Handled(l.(abort := Some(Pending(tx, m.data))), None)
      case PreCommitAbort => Handled(l.(abort := Some(Pending(tx, m.data))), None)
      case Abort => Handled(l.(abort := Some(Pending(tx, m.data))), None)
      case QueryState => Handled(l, Some(StateReply(l, tx)))
      case _ => Handled(l, None)
  }

  /** `_handle_request` for a received JSON object: a crashed participant
      ignores everything, an object that does not decode as a message is
      dropped without a reply, and anything else is processed. */
  function HandleRequest(l: Ledger, r: Record, f: Faults): (h: Handled)
    ensures l.crashed ==> h == Handled(l, None)
    ensures Decode(r).Malformed? ==> h == Handled(l, None)
    ensures !l.crashed && Decode(r).Ok? ==> h == Receive(l, Decode(r).msg, f)
  {
    if l.crashed then Handled(l, None)
    else
      match Decode(r)
      case Malformed(_) => Handled(l, None)
      case Ok(m) => Receive(l, m, f)
  }

  // ---------------------------------------------------------------------
  // Frames sent to the coordinator

  /** A delayed response: a vote goes out as a VOTE_RESPONSE frame, an
      acknowledgement as an ACK_RESPONSE frame. */
  datatype Outgoing = VoteFrame(m: Message) | AckFrame(m: Message)

  /** A ledger after an action, and the frame it sent, if any. */
  datatype Sent = Sent(after: Ledger, frame: Option<Outgoing>)

  /** The round whose vote is being cast. */
  datatype Round = CanCommitRound | PreCommitRound

  /** `_send_cancommit_vote_to_coordinator` and
      `_send_precommit_vote_to_coordinator`.  Nothing happens when the
      coordinator cannot be reached.  A CanCommit YES adds the transaction
      to `waited`; a PreCommit YES moves it from `waited` to `prepared`;
      a NO leaves every collection as it was. */
  function Cast(l: Ledger, round: Round, tx: string, yes: bool, connected: bool): (s: Sent)
    ensures !connected ==> s == Sent(l, None)
    ensures connected ==> s.frame.Some? && s.frame.value.VoteFrame? && s.frame.value.m.txId == tx
    ensures connected && round == CanCommitRound ==>
      s.frame.value.m.msgType == if yes then CanCommitVoteYes else CanCommitVoteNo
    ensures connected && round == PreCommitRound ==>
      s.frame.value.m.msgType == if yes then PreCommitVoteYes else PreCommitVoteNo
    ensures !yes ==> s.after == l
    ensures s.after.aborted == l.aborted && s.after.committed == l.committed
    ensures s.after.vote == l.vote && s.after.commit == l.commit && s.after.abort == l.abort
    ensures s.after.crashed == l.crashed
    ensures connected && yes && round == CanCommitRound ==>
      s.after.waited == l.waited + {tx} && s.after.prepared == l.prepared
    ensures connected && yes && round == PreCommitRound ==>
      s.after.waited == l.waited - {tx} && s.after.prepared == l.prepared + {tx}
  {
    if !connected then Sent(l, None)
    else
      match round
      case CanCommitRound =>
        if yes then Sent(l.(waited := l.waited + {tx}), Some(VoteFrame(Bare(CanCommitVoteYes, tx))))
        else Sent(l, Some(VoteFrame(Bare(CanCommitVoteNo, tx))))
      case PreCommitRound =>
        if yes then Sent(l.(waited := l.waited - {tx}, prepared := l.prepared + {tx}), Some(VoteFrame(Bare(PreCommitVoteYes, tx))))
        else Sent(l, Some(VoteFrame(Bare(PreCommitVoteNo, tx))))
  }

  /** An acknowledgement frame, when the coordinator can be reached. */
  function AckTo(t: MessageType, tx: string, connected: bool): (o: Option<Outgoing>)
    ensures o.Some? <==> connected
    ensures o.Some? ==> o.value == AckFrame(Bare(t, tx))
  {
    if connected then Some(AckFrame(Bare(t, tx))) else None
  }

  // ---------------------------------------------------------------------
  // Console commands

  /** The words of a command as the handlers read them: stripped, lower
      case, split on whitespace. */
  function CommandWords(cmd: string): seq<string> {
    Words(Lower(Strip(cmd)))
  }

  /** The answer of `cancommit vote yes|no` and `precommit vote yes|no`:
      exactly three words, the last `yes` or `no`. */
  function VoteAnswer(cmd: string): (r: Option<bool>)
    ensures r.Some? <==> |CommandWords(cmd)| == 3 && CommandWords(cmd)[2] in {"yes", "no"}
    ensures r == Some(true) <==> |CommandWords(cmd)| == 3 && CommandWords(cmd)[2] == "yes"
  {
    var parts := CommandWords(cmd);
    if |parts| == 3 && parts[2] == "yes" then Some(true)
    else if |parts| == 3 && parts[2] == "no" then Some(false)
    else None
  }

  /** The answer of `ack commit|abort`: exactly two words, the last
      `commit` (true) or `abort` (false). */
  function AckAnswer(cmd: string): (r: Option<bool>)
    ensures r.Some? <==> |CommandWords(cmd)| == 2 && CommandWords(cmd)[1] in {"commit", "abort"}
    ensures r == Some(true) <==> |CommandWords(cmd)| == 2 && CommandWords(cmd)[1] == "commit"
  {
    var parts := CommandWords(cmd);
    if |parts| == 2 && parts[1] == "commit" then Some(true)
    else if |parts| == 2 && parts[1] == "abort" then Some(false)
    else None
  }

  /** Text without upper-case letters. */
  predicate NoUpper(s: string) {
    forall i :: 0 <= i < |s| ==> !('A' <= s[i] <= 'Z')
  }

  /** Lower-case words joined by single spaces hold no upper-case letter. */
  lemma {:induction false} JoinNoUpper(ws: seq<string>)
    requires forall i :: 0 <= i < |ws| ==> NoUpper(ws[i])
    ensures NoUpper(Join(ws, ' '))
    decreases |ws|
  {
    if |ws| > 1 {
      JoinNoUpper(ws[1..]);
      var tail := Join(ws[1..], ' ');
      var s := Join(ws, ' ');
      assert s == ws[0] + [' '] + tail;
      forall i | 0 <= i < |s| ensures !('A' <= s[i] <= 'Z') {
        if i < |ws[0]| {
          assert s[i] == ws[0][i];
        } else if i > |ws[0]| {
          assert s[i] == tail[i - |ws[0]| - 1];
        }
      }
    }
  }

  /** Words joined by single spaces start with the first word's first
      character and end with the last word's last character. */
  lemma {:induction false} JoinEnds(ws: seq<string>)
    requires |ws| >= 1 && forall i :: 0 <= i < |ws| ==> IsWord(ws[i])
    requires ws[0] != [] && ws[|ws| - 1] != []
    ensures var s := Join(ws, ' ');
      |s| >= 1 && s[0] == ws[0][0] && s[|s| - 1] == ws[|ws| - 1][|ws[|ws| - 1]| - 1]
    decreases |ws|
  {
    if |ws| > 1 {
      assert IsWord(ws[1..][0]) && IsWord(ws[1..][|ws[1..]| - 1]);
      JoinEnds(ws[1..]);
      var tail := Join(ws[1..], ' ');
      assert Join(ws, ' ') == ws[0] + [' '] + tail;
    }
  }

  /** A command made of lower-case words separated by single spaces is read
      back as those words. */
  lemma CommandOfWords(ws: seq<string>)
    requires |ws| >= 1
    requires forall i :: 0 <= i < |ws| ==> IsWord(ws[i]) && NoUpper(ws[i])
    ensures CommandWords(Join(ws, ' ')) == ws
  {
    var s := Join(ws, ' ');
    JoinEnds(ws);
    StripTrimmed(s);
    JoinNoUpper(ws);
    LowerOfLowercase(s);
    WordsOfJoined(ws);
  }

  /** Three lower-case words separated by single spaces are read back. */
  lemma ThreeWords(a: string, b: string, c: string)
    requires IsWord(a) && IsWord(b) && IsWord(c) && NoUpper(a) && NoUpper(b) && NoUpper(c)
    ensures CommandWords(a + [' '] + b + [' '] + c) == [a, b, c]
  {
    var ws := [a, b, c];
    assert ws[1..] == [b, c];
    assert ws[1..][1..] == [c];
    assert Join([c], ' ') == c;
    assert Join([b, c], ' ') == b + [' '] + c;
    assert Join(ws, ' ') == a + [' '] + (b + [' '] + c);
    assert a + [' '] + (b + [' '] + c) == a + [' '] + b + [' '] + c;
    CommandOfWords(ws);
  }

  /** Two lower-case words separated by a single space are read back. */
  lemma TwoWords(a: string, b: string)
    requires IsWord(a) && IsWord(b) && NoUpper(a) && NoUpper(b)
    ensures CommandWords(a + [' '] + b) == [a, b]
  {
    var ws := [a, b];
    assert ws[1..] == [b];
    CommandOfWords(ws);
  }

  /** A vote command typed as three lower-case words separated by single
      spaces, the last `yes` or `no`, is understood as that answer. */
  lemma VoteCommandUnderstood(round: string, vote: string, answer: string)
    requires IsWord(round) && NoUpper(round) && IsWord(vote) && NoUpper(vote)
    requires answer == "yes" || answer == "no"
    ensures VoteAnswer(round + [' '] + vote + [' '] + answer) == Some(answer == "yes")
  {
    assert IsWord(answer) && NoUpper(answer);
    ThreeWords(round, vote, answer);
  }

  /** An acknowledgement command typed as two lower-case words separated
      by a single space, the last `commit` or `abort`, is understood as
      that answer. */
  lemma AckCommandUnderstood(ack: string, answer: string)
    requires IsWord(ack) && NoUpper(ack)
    requires answer == "commit" || answer == "abort"
    ensures AckAnswer(ack + [' '] + answer) == Some(answer == "commit")
  {
    assert IsWord(answer) && NoUpper(answer);
    TwoWords(ack, answer);
  }

  /** `_handle_cancommit_vote_command` and `_handle_precommit_vote_command`:
      a malformed command, or one with no vote pending, changes nothing;
      otherwise the pending vote is taken out of its slot (whichever round
      put it there) and cast for this command's round. */
  function VoteCommand(l: Ledger, round: Round, cmd: string, connected: bool): (s: Sent)
    ensures VoteAnswer(cmd).None? || l.vote.None? ==> s == Sent(l, None)
    ensures VoteAnswer(cmd).Some? && l.vote.Some? ==>
      s == Cast(l.(vote := None), round, l.vote.value.txId, VoteAnswer(cmd).value, connected)
  {
    match VoteAnswer(cmd)
    case None => Sent(l, None)
    case Some(yes) =>
      match l.vote
      case None => Sent(l, None)
      case Some(p) => Cast(l.(vote := None), round, p.txId, yes, connected)
  }

  /** `_handle_ack_command`.  `ack commit` takes the pending COMMIT and,
      when its transaction is prepared, commits it with the pending data.
      `ack abort` takes the pending COMMIT if there is one, else the
      pending abort, and moves its transaction from `prepared` to
      `aborted`.  Without anything pending, or for a malformed command,
      nothing changes. */
  function AckCommand(l: Ledger, cmd: string, connected: bool): (s: Sent)
    ensures AckAnswer(cmd).None? ==> s == Sent(l, None)
    ensures AckAnswer(cmd) == Some(true) && l.commit.None? ==> s == Sent(l, None)
    ensures AckAnswer(cmd) == Some(false) && l.commit.None? && l.abort.None? ==> s == Sent(l, None)
    ensures s.after.waited == l.waited && s.after.vote == l.vote && s.after.crashed == l.crashed
    ensures AckAnswer(cmd) == Some(true) && l.commit.Some? ==>
      var p := l.commit.value;
      && s.frame == AckTo(AckCommit, p.txId, connected)
      && s.after.commit.None? && s.after.abort == l.abort && s.after.aborted == l.aborted
      && (p.txId in l.prepared ==>
            s.after.committed == l.committed[p.txId := p.data] && s.after.prepared == l.prepared - {p.txId})
      && (p.txId !in l.prepared ==> s.after.committed == l.committed && s.after.prepared == l.prepared)
    ensures AckAnswer(cmd) == Some(false) && (l.commit.Some? || l.abort.Some?) ==>
      var p := if l.commit.Some? then l.commit.value else l.abort.value;
      && s.frame == AckTo(AckAbort, p.txId, connected)
      && s.after.commit.None?
      && s.after.abort == (if l.commit.Some? then l.abort else None)
      && s.after.prepared == l.prepared - {p.txId} && s.after.aborted == l.aborted + {p.txId}
      && s.after.committed == l.committed
  {
    match AckAnswer(cmd)
    case None => Sent(l, None)
    case Some(commit) =>
      if commit then
        match l.commit
        case None => Sent(l, None)
        case Some(p) =>
          var taken := l.(commit := None);
          var done := if p.txId in l.prepared
                      then taken.(committed := l.committed[p.txId := p.data], prepared := l.prepared - {p.txId})
                      else taken;
          Sent(done, AckTo(AckCommit, p.txId, connected))
      else if l.commit.Some? || l.abort.Some? then
        var p := if l.commit.Some? then l.commit.value else l.abort.value;
        var taken := if l.commit.Some? then l.(commit := None) else l.(abort := None);
        Sent(taken.(prepared := l.prepared - {p.txId}, aborted := l.aborted + {p.txId}), AckTo(AckAbort, p.txId, connected))
      else Sent(l, None)
  }

  // ---------------------------------------------------------------------
  // Timeouts

  /** Whether a slot still holds the transaction a timer was started for. */
  predicate Holds(slot: Option<Pending>, tx: string) {
    slot.Some? && slot.value.txId == tx
  }

  /** `_wait_for_cancommit_vote` and `_wait_for_precommit_vote` when their
      time is up: if the vote slot still holds the transaction, a NO is
      cast and the slot is emptied; otherwise nothing happens. */
  function VoteTimeout(l: Ledger, round: Round, tx: string, connected: bool): (s: Sent)
    ensures !Holds(l.vote, tx) ==> s == Sent(l, None)
    ensures Holds(l.vote, tx) ==> s.after == l.(vote := None)
    ensures Holds(l.vote, tx) ==> s.frame == Cast(l, round, tx, false, connected).frame
  {
    if Holds(l.vote, tx) then
      var cast := Cast(l, round, tx, false, connected);
      Sent(cast.after.(vote := None), cast.frame)
    else Sent(l, None)
  }

  /** `_wait_for_ack_commit` when its time is up: if the commit slot still
      holds the transaction, ACK_COMMIT is sent, a prepared transaction is
      committed with the pending data, and the slot is emptied. */
  function CommitTimeout(l: Ledger, tx: string, connected: bool): (s: Sent)
    ensures !Holds(l.commit, tx) ==> s == Sent(l, None)
    ensures Holds(l.commit, tx) ==>
      && s.frame == AckTo(AckCommit, tx, connected)
      && s.after.commit.None?
      && s.after.waited == l.waited && s.after.aborted == l.aborted
      && s.after.vote == l.vote && s.after.abort == l.abort && s.after.crashed == l.crashed
      && (tx in l.prepared ==>
            s.after.committed == l.committed[tx := l.commit.value.data] && s.after.prepared == l.prepared - {tx})
      && (tx !in l.prepared ==> s.after.committed == l.committed && s.after.prepared == l.prepared)
  {
    if Holds(l.commit, tx) then
      var done := if tx in l.prepared
                  then l.(committed := l.committed[tx := l.commit.value.data], prepared := l.prepared - {tx})
                  else l;
      Sent(done.(commit := None), AckTo(AckCommit, tx, connected))
    else Sent(l, None)
  }

  /** `_wait_for_ack_abort` when its time is up: if the abort slot still
      holds the transaction, ACK_ABORT is sent, the transaction moves from
      `prepared` to `aborted`, and the slot is emptied. */
  function AbortTimeout(l: Ledger, tx: string, connected: bool): (s: Sent)
    ensures !Holds(l.abort, tx) ==> s == Sent(l, None)
    ensures Holds(l.abort, tx) ==>
      && s.frame == AckTo(AckAbort, tx, connected)
      && s.after == l.(prepared := l.prepared - {tx}, aborted := l.aborted + {tx}, abort := None)
  {
    if Holds(l.abort, tx) then
      Sent(l.(prepared := l.prepared - {tx}, aborted := l.aborted + {tx}, abort := None), AckTo(AckAbort, tx, connected))
    else Sent(l, None)
  }

  // ---------------------------------------------------------------------
  // History synchronisation

  /** One record of the coordinator's history merged into the ledger: a
      COMMITTED record commits the transaction with the record's data, an
      ABORTED one aborts it, both take it out of `prepared`; any other
      status is ignored. */
  function SyncOne(l: Ledger, r: HistoryRecord): Ledger {
    if r.status == Committed then
      l.(committed := l.committed[r.txId := Lift(r.data)], prepared := l.prepared - {r.txId})
    else if r.status == Aborted then
      l.(aborted := l.aborted + {r.txId}, prepared := l.prepared - {r.txId})
    else l
  }

  /** The records of a history merged in order. */
  function Sync(l: Ledger, h: seq<HistoryRecord>): Ledger
    decreases |h|
  {
    if h == [] then l else SyncOne(Sync(l, h[..|h| - 1]), h[|h| - 1])
  }

  /** The transactions a history records as COMMITTED. */
  function CommittedIds(h: seq<HistoryRecord>): set<string> {
    set i | 0 <= i < |h| && h[i].status == Committed :: h[i].txId
  }

  /** The transactions a history records as ABORTED. */
  function AbortedIds(h: seq<HistoryRecord>): set<string> {
    set i | 0 <= i < |h| && h[i].status == Aborted :: h[i].txId
  }

  /** The data of the last COMMITTED record of `tx`, if any. */
  function LastCommitted(h: seq<HistoryRecord>, tx: string): Option<Payload>
    decreases |h|
  {
    if h == [] then None
    else if h[|h| - 1].txId == tx && h[|h| - 1].status == Committed then Some(h[|h| - 1].data)
    else LastCommitted(h[..|h| - 1], tx)
  }

  /** Adding one record to a history adds its transaction to the matching
      set only. */
  lemma IdsStep(h: seq<HistoryRecord>)
    requires h != []
    ensures var init := h[..|h| - 1];
      var r := h[|h| - 1];
      && CommittedIds(h) == CommittedIds(init) + (if r.status == Committed then {r.txId} else {})
      && AbortedIds(h) == AbortedIds(init) + (if r.status == Aborted then {r.txId} else {})
  {
    var init := h[..|h| - 1];
    var r := h[|h| - 1];
    forall tx | tx in CommittedIds(init) ensures tx in CommittedIds(h) {
      var i :| 0 <= i < |init| && init[i].status == Committed && init[i].txId == tx;
      assert h[i] == init[i];
    }
    forall tx | tx in AbortedIds(init) ensures tx in AbortedIds(h) {
      var i :| 0 <= i < |init| && init[i].status == Aborted && init[i].txId == tx;
      assert h[i] == init[i];
    }
    forall tx | tx in CommittedIds(h) ensures tx in CommittedIds(init) || (r.status == Committed && tx == r.txId) {
      var i :| 0 <= i < |h| && h[i].status == Committed && h[i].txId == tx;
      if i < |init| {
        assert init[i] == h[i];
      }
    }
    forall tx | tx in AbortedIds(h) ensures tx in AbortedIds(init) || (r.status == Aborted && tx == r.txId) {
      var i :| 0 <= i < |h| && h[i].status == Aborted && h[i].txId == tx;
      if i < |init| {
        assert init[i] == h[i];
      }
    }
    if r.status == Committed {
      assert h[|h| - 1].status == Committed;
      assert r.txId in CommittedIds(h);
    }
    if r.status == Aborted {
      assert h[|h| - 1].status == Aborted;
      assert r.txId in AbortedIds(h);
    }
  }

  /** What merging a history does: `waited`, the pending slots and the
      crash flag are untouched; every transaction recorded ABORTED is
      added to `aborted`; every transaction recorded COMMITTED or ABORTED
      leaves `prepared`; the committed transactions gain those recorded
      COMMITTED, each with the data of its last COMMITTED record. */
  lemma {:induction false} SyncEffect(l: Ledger, h: seq<HistoryRecord>)
    ensures var s := Sync(l, h);
      && s.waited == l.waited && s.vote == l.vote && s.commit == l.commit && s.abort == l.abort
      && s.crashed == l.crashed
      && s.aborted == l.aborted + AbortedIds(h)
      && s.prepared == l.prepared - CommittedIds(h) - AbortedIds(h)
      && s.committed.Keys == l.committed.Keys + CommittedIds(h)
      && forall tx :: tx in s.committed ==>
           if LastCommitted(h, tx).Some? then s.committed[tx] == Lift(LastCommitted(h, tx).value)
           else tx in l.committed && s.committed[tx] == l.committed[tx]
    decreases |h|
  {
    if h != [] {
      var init := h[..|h| - 1];
      var r := h[|h| - 1];
      SyncEffect(l, init);
      IdsStep(h);
      var before := Sync(l, init);
      var s := Sync(l, h);
      assert s == SyncOne(before, r);
      forall tx | tx in s.committed
        ensures if LastCommitted(h, tx).Some? then s.committed[tx] == Lift(LastCommitted(h, tx).value)
                else tx in l.committed && s.committed[tx] == l.committed[tx]
      {
        if r.status == Committed && tx == r.txId {
          assert LastCommitted(h, tx) == Some(r.data);
        } else {
          assert LastCommitted(h, tx) == LastCommitted(init, tx);
          assert tx in before.committed;
        }
      }
    }
  }

  /** A later COMMITTED record of the same transaction wins. */
  lemma LastRecordWins(l: Ledger, h: seq<HistoryRecord>, tx: string, a: Payload, b: Payload, t1: Timestamp, t2: Timestamp)
    ensures var s := Sync(l, h + [HistoryRecord(tx, Committed, a, t1), HistoryRecord(tx, Committed, b, t2)]);
      tx in s.committed && s.committed[tx] == Lift(b) && tx !in s.prepared
  {
    var h2 := h + [HistoryRecord(tx, Committed, a, t1), HistoryRecord(tx, Committed, b, t2)];
    assert h2[..|h2| - 1] == h + [HistoryRecord(tx, Committed, a, t1)];
  }
}
