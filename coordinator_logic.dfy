/** The coordinator's decisions, as functions of what it has seen: how
    participant frames are read, how vote and acknowledgement replies are
    tabulated, how missing ones are filled in, how transaction data typed
    at the console is parsed, how a whole transaction run and a recovery
    change the coordinator's tables, and which outcome recovery picks for
    an unfinished transaction. */
module CoordinatorLogic {
  import opened Text
  import opened Protocol

  // ---------------------------------------------------------------------
  // Sequences used as ordered sets

  predicate Distinct<T(==)>(s: seq<T>) {
    forall i, j :: 0 <= i < j < |s| ==> s[i] != s[j]
  }

  function ToSet<T(==)>(s: seq<T>): set<T> {
    set x | x in s
  }

  lemma {:induction false} DistinctCard<T>(s: seq<T>)
    requires Distinct(s)
    ensures |ToSet(s)| == |s|
    decreases |s|
  {
    if s != [] {
      assert ToSet(s) == {s[0]} + ToSet(s[1..]);
      assert s[0] !in ToSet(s[1..]);
      DistinctCard(s[1..]);
    }
  }

  lemma {:induction false} SubsetCard<T>(a: set<T>, b: set<T>)
    requires a <= b
    ensures |a| <= |b|
    ensures |a| == |b| ==> a == b
    decreases |b|
  {
    if a != b {
      var x :| x in b && x !in a;
      SubsetCard(a, b - {x});
    }
  }

  // ---------------------------------------------------------------------
  // Frames sent by participants: KIND|participant|...

  /** A participant's network address. */
  datatype Address = Address(host: string, port: int)

  /** What a frame received on the coordinator's port asks for. */
  datatype Request =
    | EmptyFrame
    | Register(pid: string, host: string, port: string)
    | VoteResponse(pid: string, body: string)
    | AckResponse(pid: string, body: string)
    | HistoryRequest(pid: string)
    | Unhandled(kind: string)

  /** The first field of a frame. */
  function FrameKind(data: string): string {
    Split(data, '|')[0]
  }

  /** Reading a frame: the kind selects the layout, and a frame with too
      few fields is not handled.  The body of a vote or acknowledgement
      frame is everything after the second separator, separators
      included. */
  function ParseRequest(data: string): (r: Request)
    ensures r.EmptyFrame? <==> data == ""
    ensures r.Register? ==> FrameKind(data) == "REGISTER"
    ensures r.VoteResponse? ==> FrameKind(data) == "VOTE_RESPONSE"
    ensures r.AckResponse? ==> FrameKind(data) == "ACK_RESPONSE"
    ensures r.HistoryRequest? ==> FrameKind(data) == "HISTORY_REQUEST"
    ensures r.Unhandled? ==> r.kind == FrameKind(data)
  {
    if data == "" then EmptyFrame
    else
      var parts := Split(data, '|');
      if parts[0] == "REGISTER" && |parts| >= 4 then Register(parts[1], parts[2], parts[3])
      else if parts[0] == "VOTE_RESPONSE" && |parts| >= 3 then VoteResponse(parts[1], Join(parts[2..], '|'))
      else if parts[0] == "ACK_RESPONSE" && |parts| >= 3 then AckResponse(parts[1], Join(parts[2..], '|'))
      else if parts[0] == "HISTORY_REQUEST" && |parts| >= 2 then HistoryRequest(parts[1])
      else Unhandled(parts[0])
  }

  /** While crashed the coordinator still serves registrations and history
      requests, and nothing else. */
  predicate ServedWhileCrashed(kind: string) {
    kind == "REGISTER" || kind == "HISTORY_REQUEST"
  }

  /** A vote or acknowledgement frame as a participant builds it is read
      back with its sender and its whole body, even when the body holds
      separators. */
  lemma ResponseFrameRoundTrip(kind: string, pid: string, body: string)
    requires kind == "VOTE_RESPONSE" || kind == "ACK_RESPONSE"
    requires '|' !in pid
    ensures var r := ParseRequest(kind + "|" + pid + "|" + body);
      && (kind == "VOTE_RESPONSE" ==> r == VoteResponse(pid, body))
      && (kind == "ACK_RESPONSE" ==> r == AckResponse(pid, body))
  {
    var data := kind + "|" + pid + "|" + body;
    assert '|' !in kind;
    assert data == kind + ['|'] + (pid + ['|'] + body);
    SplitFrame(kind, pid + ['|'] + body, '|');
    SplitFrame(pid, body, '|');
    var parts := Split(data, '|');
    assert parts == [kind, pid] + Split(body, '|');
    assert parts[2..] == Split(body, '|');
    JoinSplit(body, '|');
  }

  /** A history request as a participant builds it is read back with its
      sender. */
  lemma HistoryFrameRoundTrip(pid: string, rest: string)
    requires '|' !in pid
    ensures ParseRequest("HISTORY_REQUEST|" + pid + "|" + rest) == HistoryRequest(pid)
  {
    var data := "HISTORY_REQUEST|" + pid + "|" + rest;
    assert data == "HISTORY_REQUEST" + ['|'] + (pid + ['|'] + rest);
    SplitFrame("HISTORY_REQUEST", pid + ['|'] + rest, '|');
    SplitFrame(pid, rest, '|');
  }

  /** A registration as a participant builds it is read back with its id,
      host and port text. */
  lemma RegisterFrameRoundTrip(pid: string, host: string, port: string)
    requires '|' !in pid && '|' !in host && '|' !in port
    ensures ParseRequest("REGISTER|" + pid + "|" + host + "|" + port) == Register(pid, host, port)
  {
    var data := "REGISTER|" + pid + "|" + host + "|" + port;
    assert data == "REGISTER" + ['|'] + (pid + ['|'] + (host + ['|'] + port));
    SplitFrame("REGISTER", pid + ['|'] + (host + ['|'] + port), '|');
    SplitFrame(pid, host + ['|'] + port, '|');
    SplitFrame(host, port, '|');
    SplitWithoutSeparator(port, '|');
  }

  // ---------------------------------------------------------------------
  // int(text) for the port field, and str(n) as participants write it

  predicate IsDigit(c: char) {
    '0' <= c <= '9'
  }

  function DigitValue(c: char): nat
    requires IsDigit(c)
  {
    c as int - '0' as int
  }

  /** The number a non-empty run of decimal digits denotes. */
  function DigitsValue(d: string): nat
    requires forall i :: 0 <= i < |d| ==> IsDigit(d[i])
    decreases |d|
  {
    if d == [] then 0 else 10 * DigitsValue(d[..|d| - 1]) + DigitValue(d[|d| - 1])
  }

  /** `int(s)`: surrounding whitespace, an optional sign, then one or more
      decimal digits; anything else is rejected. */
  function ParseInt(s: string): (r: Option<int>)
    ensures r.Some? ==> Strip(s) != []
  {
    var t := Strip(s);
    var negative := |t| > 0 && t[0] == '-';
    var digits := if |t| > 0 && (t[0] == '-' || t[0] == '+') then t[1..] else t;
    if digits == [] || exists i :: 0 <= i < |digits| && !IsDigit(digits[i]) then None
    else
      var v: int := DigitsValue(digits);
      Some(if negative then -v else v)
  }

  /** `str(n)` for a non-negative number. */
  function Decimal(n: nat): (s: string)
    ensures s != [] && forall i :: 0 <= i < |s| ==> IsDigit(s[i])
    ensures DigitsValue(s) == n
  {
    var last := ['0' + (n % 10) as char];
    if n < 10 then last
    else
      var s := Decimal(n / 10) + last;
      assert s[..|s| - 1] == Decimal(n / 10);
      s
  }

  /** A port written by `str` is read back by `int`. */
  lemma ParseDecimal(n: nat)
    ensures ParseInt(Decimal(n)) == Some(n)
  {
    var s := Decimal(n);
    assert !IsSpace(s[0]) && !IsSpace(s[|s| - 1]);
    StripTrimmed(s);
    assert s[0] != '-' && s[0] != '+';
  }

  // ---------------------------------------------------------------------
  // Vote tables

  /** The two vote tables of a transaction: CanCommit votes and PreCommit
      votes, by participant. */
  datatype VoteTables = VoteTables(votes: map<string, bool>, votep: map<string, bool>)

  predicate IsCanCommitVote(t: MessageType) {
    t == CanCommitVoteYes || t == CanCommitVoteNo
  }

  /** Writing one reply from `pid` into the tables: a CanCommit vote goes to
      the CanCommit table, any other reply to the PreCommit table, where
      only PRECOMMIT_VOTE_YES counts as yes. */
  function RecordVote(t: VoteTables, pid: string, reply: MessageType): VoteTables {
    if reply == CanCommitVoteYes then t.(votes := t.votes[pid := true])
    else if reply == CanCommitVoteNo then t.(votes := t.votes[pid := false])
    else t.(votep := t.votep[pid := reply == PreCommitVoteYes])
  }

  /** The CanCommit votes among a batch of replies, as yes/no. */
  function CanCommitVotes(replies: map<string, MessageType>): map<string, bool> {
    map q | q in replies && IsCanCommitVote(replies[q]) :: replies[q] == CanCommitVoteYes
  }

  /** The other replies of a batch, as PreCommit yes/no. */
  function PreCommitVotes(replies: map<string, MessageType>): map<string, bool> {
    map q | q in replies && !IsCanCommitVote(replies[q]) :: replies[q] == PreCommitVoteYes
  }

  /** Writing a batch of replies, one per participant. */
  function RecordAll(t: VoteTables, replies: map<string, MessageType>): VoteTables {
    VoteTables(t.votes + CanCommitVotes(replies), t.votep + PreCommitVotes(replies))
  }

  /** Writing one more reply, from a participant not yet in the batch, is
      writing it into the tables the batch produced. */
  lemma RecordAllStep(t: VoteTables, replies: map<string, MessageType>, pid: string, reply: MessageType)
    requires pid !in replies
    ensures RecordAll(t, replies[pid := reply]) == RecordVote(RecordAll(t, replies), pid, reply)
  {
    var r := replies[pid := reply];
    if IsCanCommitVote(reply) {
      VotesGainOne(replies, pid, reply);
      PreCommitVotesKeep(replies, pid, reply);
      UpdateUnion(t.votes, CanCommitVotes(replies), pid, reply == CanCommitVoteYes);
    } else {
      CanCommitVotesKeep(replies, pid, reply);
      PreCommitVotesGainOne(replies, pid, reply);
      UpdateUnion(t.votep, PreCommitVotes(replies), pid, reply == PreCommitVoteYes);
    }
  }

  lemma VotesGainOne(replies: map<string, MessageType>, pid: string, reply: MessageType)
    requires pid !in replies && IsCanCommitVote(reply)
    ensures CanCommitVotes(replies[pid := reply]) == CanCommitVotes(replies)[pid := reply == CanCommitVoteYes]
  {
  }

  lemma CanCommitVotesKeep(replies: map<string, MessageType>, pid: string, reply: MessageType)
    requires pid !in replies && !IsCanCommitVote(reply)
    ensures CanCommitVotes(replies[pid := reply]) == CanCommitVotes(replies)
  {
  }

  lemma PreCommitVotesGainOne(replies: map<string, MessageType>, pid: string, reply: MessageType)
    requires pid !in replies && !IsCanCommitVote(reply)
    ensures PreCommitVotes(replies[pid := reply]) == PreCommitVotes(replies)[pid := reply == PreCommitVoteYes]
  {
  }

  lemma PreCommitVotesKeep(replies: map<string, MessageType>, pid: string, reply: MessageType)
    requires pid !in replies && IsCanCommitVote(reply)
    ensures PreCommitVotes(replies[pid := reply]) == PreCommitVotes(replies)
  {
  }

  lemma UpdateUnion<V>(m: map<string, V>, n: map<string, V>, k: string, v: V)
    ensures m + n[k := v] == (m + n)[k := v]
  {
  }

  /** The replies received from the listed participants only. */
  function Restrict(replies: map<string, MessageType>, roster: seq<string>): (r: map<string, MessageType>)
    ensures r.Keys <= ToSet(roster)
  {
    map p | p in replies && p in roster :: replies[p]
  }

  /** `all(table.values())`. */
  predicate AllTrue(m: map<string, bool>) {
    forall p :: p in m ==> m[p]
  }

  // ---------------------------------------------------------------------
  // Filling in what did not arrive

  /** Every listed participant without an entry gets `missing`; existing
      entries, listed or not, are kept. */
  function Fill<V>(m: map<string, V>, roster: seq<string>, missing: V): (r: map<string, V>)
    ensures r.Keys == m.Keys + ToSet(roster)
  {
    map p | p in m.Keys + ToSet(roster) :: if p in m then m[p] else missing
  }

  /** With missing votes counted as NO, the vote is unanimous exactly when
      every listed participant voted and every vote held is yes. */
  lemma UnanimousAfterFill(m: map<string, bool>, roster: seq<string>)
    ensures AllTrue(Fill(m, roster, false)) <==> AllTrue(m) && forall p :: p in roster ==> p in m
  {
    var f := Fill(m, roster, false);
    if AllTrue(f) {
      forall p | p in roster ensures p in m {
        assert p in f;
      }
    }
  }

  // ---------------------------------------------------------------------
  // Acknowledgements

  /** An entry of a transaction's acknowledgement table: the type of the
      acknowledgement received, or the timeout marker. */
  datatype AckValue = Acked(kind: MessageType) | TimedOut

  /** The listed participants whose send was answered at once with
      `expected`. */
  function ImmediateAcks(roster: seq<string>, replies: map<string, MessageType>, expected: MessageType): (r: map<string, AckValue>)
    ensures r.Keys <= ToSet(roster)
    ensures forall p :: p in r ==> r[p] == Acked(expected)
  {
    map p | p in roster && p in replies && replies[p] == expected :: Acked(expected)
  }

  /** Acknowledgement frames that arrived later, from any sender, override
      what the sends collected. */
  function WithLate(acks: map<string, AckValue>, late: map<string, MessageType>): (r: map<string, AckValue>)
    ensures r.Keys == acks.Keys + late.Keys
    ensures forall p :: p in late ==> r[p] == Acked(late[p])
  {
    acks + map p | p in late :: Acked(late[p])
  }

  /** `sum(1 for ack in acks.values() if ack == kind)`. */
  function CountAcks(acks: map<string, AckValue>, kind: MessageType): nat {
    |set p | p in acks && acks[p] == Acked(kind)|
  }

  /** When only listed participants have entries, the count of ACK_COMMIT
      reaches the number of participants exactly when every listed
      participant acknowledged the commit. */
  lemma CommitQuorum(acks: map<string, AckValue>, roster: seq<string>)
    requires Distinct(roster)
    requires acks.Keys <= ToSet(roster)
    ensures CountAcks(acks, AckCommit) >= |roster|
        <==> forall p :: p in roster ==> p in acks && acks[p] == Acked(AckCommit)
  {
    var s := set p | p in acks && acks[p] == Acked(AckCommit);
    assert CountAcks(acks, AckCommit) == |s|;
    DistinctCard(roster);
    SubsetCard(s, ToSet(roster));
    if |s| >= |roster| {
      assert s == ToSet(roster);
      forall p | p in roster ensures p in acks && acks[p] == Acked(AckCommit) {
        assert p in ToSet(roster);
      }
    }
    if forall p :: p in roster ==> p in acks && acks[p] == Acked(AckCommit) {
      assert ToSet(roster) <= s;
      SubsetCard(ToSet(roster), s);
    }
  }

  /** Acknowledgements from senders outside the list count as well: with two
      listed participants, one of them silent, a stray ACK_COMMIT still
      brings the count to two. */
  lemma StrayAckFillsQuorum()
    ensures var roster := ["P1", "P2"];
      var acks := Fill(WithLate(map["P1" := Acked(AckCommit)], map["X" := AckCommit]), roster, TimedOut);
      && CountAcks(acks, AckCommit) >= |roster|
      && acks["P2"] == TimedOut
  {
    var roster := ["P1", "P2"];
    var acks := Fill(WithLate(map["P1" := Acked(AckCommit)], map["X" := AckCommit]), roster, TimedOut);
    assert "P2" !in WithLate(map["P1" := Acked(AckCommit)], map["X" := AckCommit]);
    assert acks["P1"] == Acked(AckCommit) && acks["X"] == Acked(AckCommit);
    var s := set p | p in acks && acks[p] == Acked(AckCommit);
    assert {"P1", "X"} <= s;
    SubsetCard({"P1", "X"}, s);
  }

  // ---------------------------------------------------------------------
  // Transaction data typed at the console: key=value, key=value, ...

  /** Position of the first `c` in `s`, or `|s|` when there is none. */
  function FirstIndex(s: string, c: char): (i: nat)
    ensures i <= |s|
    ensures i < |s| ==> s[i] == c
    ensures forall j :: 0 <= j < i ==> s[j] != c
    decreases |s|
  {
    if s == [] || s[0] == c then 0 else 1 + FirstIndex(s[1..], c)
  }

  /** One piece: split at its first `=`, both sides stripped.  A piece
      without `=` yields nothing. */
  function ParsePair(piece: string): (r: Option<(string, string)>)
    ensures r.None? <==> '=' !in piece
  {
    var i := FirstIndex(piece, '=');
    if i == |piece| then None else Some((Strip(piece[..i]), Strip(piece[i + 1..])))
  }

  /** The pieces, each read as a key/value pair or as nothing. */
  function Pairs(pieces: seq<string>): (r: seq<Option<(string, string)>>)
    ensures |r| == |pieces|
    ensures forall i :: 0 <= i < |pieces| ==> r[i] == ParsePair(pieces[i])
  {
    seq(|pieces|, i requires 0 <= i < |pieces| => ParsePair(pieces[i]))
  }

  /** The data the pairs describe, read from left to right; a later key
      overwrites an earlier one. */
  function Collect(pairs: seq<Option<(string, string)>>): Payload
    decreases |pairs|
  {
    if pairs == [] then map[]
    else
      var acc := Collect(pairs[..|pairs| - 1]);
      match pairs[|pairs| - 1]
      case None => acc
      case Some(kv) => acc[kv.0 := kv.1]
  }

  /** The console input as transaction data: nothing for blank input, and
      nothing when no piece holds a key. */
  function ParsePayload(input: string): Option<Payload> {
    var t := Strip(input);
    if t == [] then None
    else
      var d := Collect(Pairs(Split(t, ',')));
      if d == map[] then None else Some(d)
  }

  /** The keys named by the pairs. */
  function PairKeys(pairs: seq<Option<(string, string)>>): set<string> {
    set i | 0 <= i < |pairs| && pairs[i].Some? :: pairs[i].value.0
  }

  /** The keys of the collected data are exactly the keys the pairs name. */
  lemma {:induction false} CollectKeys(pairs: seq<Option<(string, string)>>)
    ensures Collect(pairs).Keys == PairKeys(pairs)
    decreases |pairs|
  {
    if pairs != [] {
      var n := |pairs| - 1;
      var init := pairs[..n];
      CollectKeys(init);
      var last := if pairs[n].Some? then {pairs[n].value.0} else {};
      assert PairKeys(pairs) == PairKeys(init) + last by {
        forall k | k in PairKeys(pairs) ensures k in PairKeys(init) + last {
          var i :| 0 <= i < |pairs| && pairs[i].Some? && pairs[i].value.0 == k;
          if i < n {
            assert init[i] == pairs[i];
          }
        }
        forall k | k in PairKeys(init) ensures k in PairKeys(pairs) {
          var i :| 0 <= i < |init| && init[i].Some? && init[i].value.0 == k;
          assert pairs[i] == init[i];
        }
      }
    }
  }

  /** A key takes the value of the last pair that names it. */
  lemma {:induction false} CollectLastWins(pairs: seq<Option<(string, string)>>, i: nat, k: string, v: string)
    requires i < |pairs| && pairs[i] == Some((k, v))
    requires forall j :: i < j < |pairs| ==> pairs[j].None? || pairs[j].value.0 != k
    ensures k in Collect(pairs) && Collect(pairs)[k] == v
    decreases |pairs|
  {
    if i < |pairs| - 1 {
      var init := pairs[..|pairs| - 1];
      assert init[i] == pairs[i];
      CollectLastWins(init, i, k, v);
    }
  }

  /** No piece holds `=`. */
  predicate NoKeyPiece(pieces: seq<string>) {
    forall i :: 0 <= i < |pieces| ==> '=' !in pieces[i]
  }

  /** Input is refused exactly when it is blank or no piece holds `=`. */
  lemma PayloadRefused(input: string)
    ensures ParsePayload(input).None? <==> Strip(input) == [] || NoKeyPiece(Split(Strip(input), ','))
  {
    var t := Strip(input);
    if t != [] {
      var pieces := Split(t, ',');
      CollectEmptyIff(pieces);
    }
  }

  lemma CollectEmptyIff(pieces: seq<string>)
    ensures Collect(Pairs(pieces)) == map[] <==> NoKeyPiece(pieces)
  {
    CollectKeys(Pairs(pieces));
    if !NoKeyPiece(pieces) {
      var i :| 0 <= i < |pieces| && '=' in pieces[i];
      KeyPiece(pieces, i);
    }
    if Collect(Pairs(pieces)) != map[] {
      var k :| k in Collect(Pairs(pieces));
      KeyOrigin(pieces, k);
    }
  }

  lemma KeyPiece(pieces: seq<string>, i: nat)
    requires i < |pieces| && '=' in pieces[i]
    ensures Pairs(pieces)[i].Some? && Pairs(pieces)[i].value.0 in PairKeys(Pairs(pieces))
  {
  }

  lemma KeyOrigin(pieces: seq<string>, k: string)
    requires k in PairKeys(Pairs(pieces))
    ensures !NoKeyPiece(pieces)
  {
    var pairs := Pairs(pieces);
    var i :| 0 <= i < |pairs| && pairs[i].Some? && pairs[i].value.0 == k;
    assert pairs[i] == ParsePair(pieces[i]);
    assert 0 <= i < |pieces| && '=' in pieces[i];
  }

  // ---------------------------------------------------------------------
  // A transaction's record

  /** What the coordinator keeps per transaction. */
  datatype TxRecord = TxRecord(
    data: Payload,
    participants: seq<string>,
    votes: map<string, bool>,
    votep: map<string, bool>,
    votec: map<string, bool>,
    acks: map<string, AckValue>,
    status: TxStatus)

  /** The record a transaction starts with. */
  function NewRecord(data: Payload, roster: seq<string>): TxRecord {
    TxRecord(data, roster, map[], map[], map[], map[], Waiting)
  }

  predicate Unfinished(s: TxStatus) {
    s == Waiting || s == Waited || s == Preparing || s == Prepared
  }

  // ---------------------------------------------------------------------
  // Inputs of a run: what the network and the console did meanwhile

  /** One voting phase: the replies that came back on the sends, and the
      vote frames that arrived, from any sender, while the coordinator
      waited. */
  datatype VoteRound = VoteRound(replies: map<string, MessageType>, late: map<string, MessageType>)

  /** Where a `crash` command typed during a run is first noticed before the
      decision is broadcast. */
  datatype VoteCrash =
    | NoVoteCrash
    | CrashInCanCommitWait   // while waiting for CanCommit votes
    | CrashInPreCommitWait   // while waiting for PreCommit votes
    | CrashAfterVoting       // after the votes, before the decision is sent

  /** Where a crash is noticed while a decision is broadcast. */
  datatype AckCrash = NoAckCrash | CrashWhileSending | CrashWhileWaiting

  /** One decision broadcast: the replies to the sends, the
      acknowledgement frames that arrived while waiting, a crash, and the
      clock reading used for the history entry. */
  datatype AckRound = AckRound(replies: map<string, MessageType>, late: map<string, MessageType>, crash: AckCrash, stamp: Timestamp)

  datatype RunInputs = RunInputs(canCommit: VoteRound, preCommit: VoteRound, voteCrash: VoteCrash, decision: AckRound)

  /** What a run leaves behind: the transaction's record, the history
      entries it appends, whether the coordinator is crashed, and what the
      run returns. */
  datatype RunEffect = RunEffect(rec: TxRecord, logged: seq<HistoryRecord>, crashed: bool, committed: bool)

  // ---------------------------------------------------------------------
  // The vote tables at each step of a run

  function NoVotes(): VoteTables {
    VoteTables(map[], map[])
  }

  /** Replies to the CanCommit sends, classified into the run's own tables. */
  function ImmediateFirst(roster: seq<string>, inp: RunInputs): VoteTables {
    RecordAll(NoVotes(), Restrict(inp.canCommit.replies, roster))
  }

  /** The stored tables when the CanCommit wait ends: the stored CanCommit
      table is the run's own, the stored PreCommit table still the initial
      one; frames arriving meanwhile write into both. */
  function FirstWait(roster: seq<string>, inp: RunInputs): VoteTables {
    RecordAll(VoteTables(ImmediateFirst(roster, inp).votes, map[]), inp.canCommit.late)
  }

  /** The CanCommit decision table: a missing vote is a NO. */
  function CanCommitTally(roster: seq<string>, inp: RunInputs): map<string, bool> {
    Fill(FirstWait(roster, inp).votes, roster, false)
  }

  /** The stored tables when the PreCommit wait ends: replies to the
      PreCommit sends join the run's own PreCommit table (which already
      holds any PreCommit-type replies to the CanCommit sends) and that
      table replaces the stored one; later frames write into both. */
  function SecondWait(roster: seq<string>, inp: RunInputs): VoteTables {
    var sent := RecordAll(VoteTables(CanCommitTally(roster, inp), ImmediateFirst(roster, inp).votep),
                          Restrict(inp.preCommit.replies, roster));
    RecordAll(sent, inp.preCommit.late)
  }

  /** The PreCommit decision table: a missing vote is a NO. */
  function PreCommitTally(roster: seq<string>, inp: RunInputs): map<string, bool> {
    Fill(SecondWait(roster, inp).votep, roster, false)
  }

  /** The CanCommit vote that counts for `p`: the last one received, a
      frame received while waiting overriding the reply to the send. */
  function LastCanCommitVote(roster: seq<string>, r: VoteRound, p: string): Option<bool> {
    if p in r.late && IsCanCommitVote(r.late[p]) then Some(r.late[p] == CanCommitVoteYes)
    else if p in roster && p in r.replies && IsCanCommitVote(r.replies[p]) then Some(r.replies[p] == CanCommitVoteYes)
    else None
  }

  /** A listed participant counts as yes in the CanCommit decision exactly
      when the CanCommit vote that counts for it is a yes; no vote is a
      NO. */
  lemma CanCommitTallyIsLastVote(roster: seq<string>, inp: RunInputs, p: string)
    requires p in roster
    ensures p in CanCommitTally(roster, inp)
    ensures CanCommitTally(roster, inp)[p] <==> LastCanCommitVote(roster, inp.canCommit, p) == Some(true)
  {
    var r := inp.canCommit;
    var first := Restrict(r.replies, roster);
    var w := FirstWait(roster, inp).votes;
    assert w == CanCommitVotes(first) + CanCommitVotes(r.late);
    assert CanCommitTally(roster, inp)[p] == (p in w && w[p]);
    if p in r.late && IsCanCommitVote(r.late[p]) {
      assert p in CanCommitVotes(r.late);
    } else if p in r.replies && IsCanCommitVote(r.replies[p]) {
      assert p in CanCommitVotes(first);
    } else {
      assert p !in w;
    }
  }

  // ---------------------------------------------------------------------
  // A whole run of execute_transaction

  /** Broadcasting the decision and collecting acknowledgements.  A crash
      noticed before or while sending leaves the record as it was, with the
      new status; a crash noticed while waiting leaves the acknowledgements
      received so far.  Otherwise missing acknowledgements become
      timeouts, the outcome is fixed and one history entry is appended:
      COMMITTED only for a commit decision that every listed participant's
      slot acknowledged, by count. */
  function Decide(txId: string, rec: TxRecord, roster: seq<string>, commit: bool, crashedBefore: bool, ph: AckRound): (e: RunEffect)
    ensures e.rec.data == rec.data && e.rec.participants == rec.participants
    ensures e.rec.votes == rec.votes && e.rec.votep == rec.votep
    ensures e.crashed <==> e.logged == []
    ensures e.crashed ==> e.rec.status == (if commit then Committing else Aborting)
    ensures !e.crashed ==> e.logged == [HistoryRecord(txId, e.rec.status, rec.data, ph.stamp)]
    ensures !e.crashed ==> e.rec.status == (if commit && CountAcks(e.rec.acks, AckCommit) >= |roster| then Committed else Aborted)
    ensures !e.crashed ==> e.rec.acks.Keys == ToSet(roster) + ph.late.Keys
    ensures e.committed <==> e.rec.status == Committed
  {
    var expected := if commit then AckCommit else AckAbort;
    var sending := rec.(status := if commit then Committing else Aborting);
    if crashedBefore || ph.crash == CrashWhileSending then RunEffect(sending, [], true, false)
    else
      var received := WithLate(ImmediateAcks(roster, ph.replies, expected), ph.late);
      if ph.crash == CrashWhileWaiting then RunEffect(sending.(acks := received), [], true, false)
      else
        var acks := Fill(received, roster, TimedOut);
        var outcome := if commit && CountAcks(acks, AckCommit) >= |roster| then Committed else Aborted;
        RunEffect(sending.(acks := acks, status := outcome),
                  [HistoryRecord(txId, outcome, rec.data, ph.stamp)], false, outcome == Committed)
  }

  /** A run of `execute_transaction` for a coordinator that is up and has
      the listed participants.  The record starts WAITING; the CanCommit
      table decides whether PreCommit is sent; a NO there sends
      CANCOMMIT_ABORT instead.  A run that notices a crash returns false
      and appends nothing; a finished run appends exactly one entry. */
  function Run(txId: string, data: Payload, roster: seq<string>, inp: RunInputs): (e: RunEffect)
    ensures e.rec.data == data && e.rec.participants == roster && e.rec.votec == map[]
    ensures e.crashed <==> e.logged == []
    ensures !e.crashed ==> e.logged == [HistoryRecord(txId, e.rec.status, data, inp.decision.stamp)]
    ensures !e.crashed ==> e.rec.status == Committed || e.rec.status == Aborted
    ensures e.crashed ==> e.rec.status != Committed && e.rec.status != Aborted
    ensures e.committed <==> e.rec.status == Committed
  {
    var first := FirstWait(roster, inp);
    if inp.voteCrash == CrashInCanCommitWait then
      RunEffect(NewRecord(data, roster).(votes := first.votes, votep := first.votep), [], true, false)
    else
      var waited := AfterCanCommit(data, roster, inp);
      if !AllTrue(waited.votes) then
        Decide(txId, waited, roster, false, inp.voteCrash != NoVoteCrash, inp.decision)
      else PreCommitPhase(txId, waited, roster, inp)
  }

  /** The record once the CanCommit votes are tallied. */
  function AfterCanCommit(data: Payload, roster: seq<string>, inp: RunInputs): (rec: TxRecord)
    ensures rec.data == data && rec.participants == roster && rec.votec == map[] && rec.status == Waited
  {
    NewRecord(data, roster).(votes := CanCommitTally(roster, inp), votep := FirstWait(roster, inp).votep, status := Waited)
  }

  /** The rest of a run once the CanCommit table is all yes: the status
      becomes PREPARING, PreCommit is sent, and the PreCommit table decides
      between COMMIT and PRECOMMIT_ABORT. */
  function PreCommitPhase(txId: string, waited: TxRecord, roster: seq<string>, inp: RunInputs): (e: RunEffect)
    ensures e.rec.data == waited.data && e.rec.participants == waited.participants && e.rec.votec == waited.votec
    ensures e.crashed <==> e.logged == []
    ensures !e.crashed ==> e.logged == [HistoryRecord(txId, e.rec.status, waited.data, inp.decision.stamp)]
    ensures !e.crashed ==> e.rec.status == Committed || e.rec.status == Aborted
    ensures e.crashed ==> e.rec.status != Committed && e.rec.status != Aborted
    ensures e.committed <==> e.rec.status == Committed
  {
    var second := SecondWait(roster, inp);
    var preparing := waited.(votes := second.votes, votep := second.votep, status := Preparing);
    if inp.voteCrash == CrashInPreCommitWait then RunEffect(preparing, [], true, false)
    else PreparedPhase(txId, waited, roster, inp)
  }

  /** From the tallied PreCommit table on: a crash, or the decision. */
  function PreparedPhase(txId: string, waited: TxRecord, roster: seq<string>, inp: RunInputs): (e: RunEffect)
    ensures e.rec.data == waited.data && e.rec.participants == waited.participants && e.rec.votec == waited.votec
    ensures e.crashed <==> e.logged == []
    ensures !e.crashed ==> e.logged == [HistoryRecord(txId, e.rec.status, waited.data, inp.decision.stamp)]
    ensures !e.crashed ==> e.rec.status == Committed || e.rec.status == Aborted
    ensures e.crashed ==> e.rec.status != Committed && e.rec.status != Aborted
    ensures e.committed <==> e.rec.status == Committed
  {
    var prepared := AfterPreCommit(waited, roster, inp);
    if inp.voteCrash == CrashAfterVoting then RunEffect(prepared, [], true, false)
    else Decide(txId, prepared, roster, AllTrue(prepared.votep), false, inp.decision)
  }

  /** The record once the PreCommit votes are tallied. */
  function AfterPreCommit(waited: TxRecord, roster: seq<string>, inp: RunInputs): (rec: TxRecord)
    ensures rec.data == waited.data && rec.participants == waited.participants && rec.votec == waited.votec
    ensures rec.status == Prepared && rec.votep == PreCommitTally(roster, inp)
  {
    waited.(votes := SecondWait(roster, inp).votes, votep := PreCommitTally(roster, inp), status := Prepared)
  }

  /** PreCommit is sent, and COMMIT after it, only when the CanCommit table
      is all yes; COMMITTED also needs the PreCommit table all yes.  Both
      tables hold an entry for every listed participant. */
  lemma CommitNeedsUnanimity(txId: string, data: Payload, roster: seq<string>, inp: RunInputs)
    ensures var e := Run(txId, data, roster, inp);
      && (e.rec.status in {Preparing, Prepared, Committing, Committed} ==> AllTrue(CanCommitTally(roster, inp)))
      && (e.rec.status in {Committing, Committed} ==> AllTrue(PreCommitTally(roster, inp)))
    ensures forall p :: p in roster ==> p in CanCommitTally(roster, inp) && p in PreCommitTally(roster, inp)
  {
    var e := Run(txId, data, roster, inp);
    var waited := AfterCanCommit(data, roster, inp);
    if inp.voteCrash == CrashInCanCommitWait {
      assert e.rec.status == Waiting;
    } else if !AllTrue(waited.votes) {
      assert e == Decide(txId, waited, roster, false, inp.voteCrash != NoVoteCrash, inp.decision);
    } else {
      assert e == PreCommitPhase(txId, waited, roster, inp);
      if inp.voteCrash == NoVoteCrash {
        var prepared := AfterPreCommit(waited, roster, inp);
        assert e == Decide(txId, prepared, roster, AllTrue(prepared.votep), false, inp.decision);
      }
    }
  }

  /** The acknowledgement that counts for `p` when `expected` was sent: a
      frame received while waiting overrides the reply to the send. */
  function LastAck(roster: seq<string>, ph: AckRound, expected: MessageType, p: string): AckValue {
    if p in ph.late then Acked(ph.late[p])
    else if p in roster && p in ph.replies && ph.replies[p] == expected then Acked(expected)
    else TimedOut
  }

  /** When acknowledgements come only from listed participants, a run
      commits exactly when no crash is noticed, both vote tables are all
      yes, and every listed participant's last acknowledgement is
      ACK_COMMIT. */
  lemma CommitIff(txId: string, data: Payload, roster: seq<string>, inp: RunInputs)
    requires Distinct(roster)
    requires inp.decision.late.Keys <= ToSet(roster)
    ensures Run(txId, data, roster, inp).committed
        <==> && inp.voteCrash == NoVoteCrash
             && inp.decision.crash == NoAckCrash
             && AllTrue(CanCommitTally(roster, inp))
             && AllTrue(PreCommitTally(roster, inp))
             && forall p :: p in roster ==> LastAck(roster, inp.decision, AckCommit, p) == Acked(AckCommit)
  {
    CommitNeedsUnanimity(txId, data, roster, inp);
    if inp.voteCrash != NoVoteCrash {
      VoteCrashStopsCommit(txId, data, roster, inp);
    } else if AllTrue(CanCommitTally(roster, inp)) {
      RunReachesDecision(txId, data, roster, inp);
      var prepared := AfterPreCommit(AfterCanCommit(data, roster, inp), roster, inp);
      DecideCommitIff(txId, prepared, roster, AllTrue(PreCommitTally(roster, inp)), inp.decision);
    }
  }

  /** A crash noticed during voting means the run does not commit. */
  lemma VoteCrashStopsCommit(txId: string, data: Payload, roster: seq<string>, inp: RunInputs)
    requires inp.voteCrash != NoVoteCrash
    ensures !Run(txId, data, roster, inp).committed
  {
    var waited := AfterCanCommit(data, roster, inp);
    if inp.voteCrash != CrashInCanCommitWait {
      if !AllTrue(waited.votes) {
        assert Run(txId, data, roster, inp) == Decide(txId, waited, roster, false, true, inp.decision);
      } else {
        assert Run(txId, data, roster, inp) == PreCommitPhase(txId, waited, roster, inp);
      }
    }
  }

  /** Without a crash during voting and with a unanimous CanCommit table,
      a run ends with the broadcast of the PreCommit table's decision. */
  lemma RunReachesDecision(txId: string, data: Payload, roster: seq<string>, inp: RunInputs)
    requires inp.voteCrash == NoVoteCrash && AllTrue(CanCommitTally(roster, inp))
    ensures Run(txId, data, roster, inp)
         == Decide(txId, AfterPreCommit(AfterCanCommit(data, roster, inp), roster, inp), roster,
                   AllTrue(PreCommitTally(roster, inp)), false, inp.decision)
  {
    var waited := AfterCanCommit(data, roster, inp);
    assert Run(txId, data, roster, inp) == PreCommitPhase(txId, waited, roster, inp);
  }

  /** A broadcast ends COMMITTED exactly when it was a commit, no crash was
      noticed, and every listed participant's last acknowledgement is
      ACK_COMMIT, provided only listed participants acknowledge. */
  lemma DecideCommitIff(txId: string, rec: TxRecord, roster: seq<string>, commit: bool, ph: AckRound)
    requires Distinct(roster)
    requires ph.late.Keys <= ToSet(roster)
    ensures Decide(txId, rec, roster, commit, false, ph).committed
        <==> commit && ph.crash == NoAckCrash
             && forall p :: p in roster ==> LastAck(roster, ph, AckCommit, p) == Acked(AckCommit)
  {
    if commit && ph.crash == NoAckCrash {
      var acks := Fill(WithLate(ImmediateAcks(roster, ph.replies, AckCommit), ph.late), roster, TimedOut);
      assert Decide(txId, rec, roster, commit, false, ph).rec.acks == acks;
      FilledAcksAreLast(roster, ph);
      CommitQuorum(acks, roster);
    }
  }

  /** After the fill, each listed participant's entry is its last
      acknowledgement, and only listed participants have entries when only
      they acknowledged. */
  lemma FilledAcksAreLast(roster: seq<string>, ph: AckRound)
    ensures var acks := Fill(WithLate(ImmediateAcks(roster, ph.replies, AckCommit), ph.late), roster, TimedOut);
      && (ph.late.Keys <= ToSet(roster) ==> acks.Keys <= ToSet(roster))
      && forall p :: p in roster ==> acks[p] == LastAck(roster, ph, AckCommit, p)
  {
  }

  // ---------------------------------------------------------------------
  // Recovery

  /** The coordinator's tables that recovery reads and writes. */
  datatype Tables = Tables(transactions: map<string, TxRecord>, history: seq<HistoryRecord>, crashed: bool)

  /** `_complete_commit`: COMMIT to every registered participant, stopping at
      a crash; the outcome compares the ACK_COMMIT count with the number of
      registered participants.  The status is not set to COMMITTING first. */
  function CompleteCommit(t: Tables, txId: string, registry: seq<string>, ph: AckRound): (r: Tables)
    requires txId in t.transactions
    ensures txId in r.transactions && r.transactions == t.transactions[txId := r.transactions[txId]]
    ensures r.transactions[txId].data == t.transactions[txId].data
    ensures r.transactions[txId].votes == t.transactions[txId].votes
    ensures r.crashed ==> r.history == t.history && r.transactions[txId].status == t.transactions[txId].status
    ensures !r.crashed ==> r.history == t.history + [HistoryRecord(txId, r.transactions[txId].status, t.transactions[txId].data, ph.stamp)]
    ensures !r.crashed ==> r.transactions[txId].status
                           == (if CountAcks(r.transactions[txId].acks, AckCommit) < |registry| then Aborted else Committed)
    ensures r.crashed <==> t.crashed || ph.crash != NoAckCrash
  {
    var rec := t.transactions[txId];
    var crashed := t.crashed || ph.crash == CrashWhileSending;
    if crashed && registry != [] then t.(crashed := true)
    else
      var received := if crashed then map[] else WithLate(ImmediateAcks(registry, ph.replies, AckCommit), ph.late);
      if crashed || ph.crash == CrashWhileWaiting then
        t.(transactions := t.transactions[txId := rec.(acks := received)], crashed := true)
      else
        var acks := Fill(received, registry, TimedOut);
        var outcome := if CountAcks(acks, AckCommit) < |registry| then Aborted else Committed;
        Tables(t.transactions[txId := rec.(acks := acks, status := outcome)],
               t.history + [HistoryRecord(txId, outcome, rec.data, ph.stamp)], false)
  }

  /** `_complete_abort`: the status becomes ABORTING, ABORT goes to every
      registered participant (a crashed coordinator's sends are refused),
      and unless a crash is noticed while waiting the transaction ends
      ABORTED with one history entry. */
  function CompleteAbort(t: Tables, txId: string, registry: seq<string>, ph: AckRound): (r: Tables)
    requires txId in t.transactions
    ensures txId in r.transactions && r.transactions == t.transactions[txId := r.transactions[txId]]
    ensures r.transactions[txId].data == t.transactions[txId].data
    ensures r.transactions[txId].votes == t.transactions[txId].votes
    ensures r.crashed ==> r.history == t.history && r.transactions[txId].status == Aborting
    ensures !r.crashed ==> r.history == t.history + [HistoryRecord(txId, Aborted, t.transactions[txId].data, ph.stamp)]
    ensures !r.crashed ==> r.transactions[txId].status == Aborted
    ensures r.crashed <==> t.crashed || ph.crash != NoAckCrash
  {
    var rec := t.transactions[txId].(status := Aborting);
    var immediate := if t.crashed then map[] else ImmediateAcks(registry, ph.replies, AckAbort);
    if t.crashed || ph.crash == CrashWhileSending then
      t.(transactions := t.transactions[txId := rec.(acks := immediate)], crashed := true)
    else if ph.crash == CrashWhileWaiting then
      t.(transactions := t.transactions[txId := rec.(acks := WithLate(immediate, ph.late))], crashed := true)
    else
      var acks := Fill(WithLate(immediate, ph.late), registry, TimedOut);
      assert ph.crash == NoAckCrash;
      Tables(t.transactions[txId := rec.(acks := acks, status := Aborted)],
             t.history + [HistoryRecord(txId, Aborted, rec.data, ph.stamp)], false)
  }

  /** How recovery finishes a transaction. */
  datatype Completion = FinishCommit | FinishAbort

  /** The decision rule of recovery: a transaction that had not reached
      PREPARING is aborted; a PREPARING or PREPARED one is committed when its
      CanCommit table has as many entries as it has participants and all are
      yes.  The COMMITTING/COMMITTED and ABORTING/ABORTED cases never see
      a transaction, because only unfinished ones are resumed. */
  function Triage(rec: TxRecord): Completion {
    match rec.status
    case Waiting => FinishAbort
    case Waited => FinishAbort
    case Preparing => if |rec.votes| == |rec.participants| && AllTrue(rec.votes) then FinishCommit else FinishAbort
    case Prepared => if |rec.votes| == |rec.participants| && AllTrue(rec.votes) then FinishCommit else FinishAbort
    case Committing => FinishCommit
    case Committed => FinishCommit
    case Aborting => FinishAbort
    case Aborted => FinishAbort
  }

  /** For the transactions recovery resumes, it commits exactly those that
      had reached PREPARING with a complete all-yes CanCommit table. */
  lemma TriageOfUnfinished(rec: TxRecord)
    requires Unfinished(rec.status)
    ensures Triage(rec) == FinishCommit
        <==> (rec.status == Preparing || rec.status == Prepared)
             && |rec.votes| == |rec.participants| && AllTrue(rec.votes)
  {
  }

  /** For a run's CanCommit table over distinct participants, the size test
      of recovery holds exactly when no unlisted sender has an entry, so
      recovery commits exactly when that table is all yes and stray-free. */
  lemma TriageOfFilledVotes(rec: TxRecord, roster: seq<string>, m: map<string, bool>)
    requires Distinct(roster) && rec.participants == roster
    requires rec.votes == Fill(m, roster, false)
    requires rec.status == Preparing || rec.status == Prepared
    ensures Triage(rec) == FinishCommit <==> rec.votes.Keys == ToSet(roster) && AllTrue(rec.votes)
  {
    DistinctCard(roster);
    assert ToSet(roster) <= rec.votes.Keys;
    SubsetCard(ToSet(roster), rec.votes.Keys);
  }

  /** Recovery consults the CanCommit table only: a PREPARED transaction
      whose PreCommit table holds a NO is committed. */
  lemma TriageIgnoresPreCommitVotes()
    ensures Triage(TxRecord(map[], ["P1"], map["P1" := true], map["P1" := false], map[], map[], Prepared)) == FinishCommit
  {
    var rec := TxRecord(map[], ["P1"], map["P1" := true], map["P1" := false], map[], map[], Prepared);
    assert rec.votes.Keys == {"P1"};
  }

  /** The transactions recovery resumes, in the order they were created. */
  function UnfinishedIds(ids: seq<string>, txs: map<string, TxRecord>): (r: seq<string>)
    ensures forall k :: k in r <==> k in ids && k in txs && Unfinished(txs[k].status)
    ensures Distinct(ids) ==> Distinct(r)
    decreases |ids|
  {
    if ids == [] then []
    else
      var rest := UnfinishedIds(ids[1..], txs);
      if ids[0] in txs && Unfinished(txs[ids[0]].status) then [ids[0]] + rest else rest
  }

  /** Finishing one resumed transaction: it adds at most one history
      entry, for that transaction, with the status it ends in. */
  function Finish(t: Tables, txId: string, registry: seq<string>, ph: AckRound): (r: Tables)
    requires txId in t.transactions
    ensures txId in r.transactions && r.transactions == t.transactions[txId := r.transactions[txId]]
    ensures r.history == t.history
         || r.history == t.history + [HistoryRecord(txId, r.transactions[txId].status, t.transactions[txId].data, ph.stamp)]
  {
    if Triage(t.transactions[txId]) == FinishCommit then CompleteCommit(t, txId, registry, ph)
    else CompleteAbort(t, txId, registry, ph)
  }

  /** Without a crash, finishing a transaction ends it COMMITTED or ABORTED
      with one history entry, and COMMITTED only where the decision rule
      said commit. */
  lemma FinishResolves(t: Tables, txId: string, registry: seq<string>, ph: AckRound)
    requires txId in t.transactions
    requires !t.crashed && ph.crash == NoAckCrash
    ensures var r := Finish(t, txId, registry, ph);
      && !r.crashed
      && |r.history| == |t.history| + 1 && r.history[..|t.history|] == t.history
      && Resolved(t.transactions[txId], r, txId, |t.history|, ph.stamp)
  {
  }

  /** Without a crash, finishing a transaction keeps the coordinator up
      and appends exactly one entry. */
  lemma FinishAppendsOne(t: Tables, txId: string, registry: seq<string>, ph: AckRound)
    requires txId in t.transactions
    requires !t.crashed && ph.crash == NoAckCrash
    ensures var r := Finish(t, txId, registry, ph);
      !r.crashed && |r.history| == |t.history| + 1
  {
    FinishResolves(t, txId, registry, ph);
  }

  /** Finishing the resumed transactions one after another. */
  function Resume(t: Tables, registry: seq<string>, pending: seq<string>, rounds: string -> AckRound): (r: Tables)
    requires forall i :: 0 <= i < |pending| ==> pending[i] in t.transactions
    ensures r.transactions.Keys == t.transactions.Keys
    decreases |pending|
  {
    if pending == [] then t
    else Resume(Finish(t, pending[0], registry, rounds(pending[0])), registry, pending[1..], rounds)
  }

  /** `_recover_coordinator`: the crash flag is cleared, every unfinished
      transaction is finished in creation order, and the flag is cleared
      again at the end. */
  function Recover(t: Tables, registry: seq<string>, ids: seq<string>, rounds: string -> AckRound): Tables
  {
    var pending := UnfinishedIds(ids, t.transactions);
    Resume(t.(crashed := false), registry, pending, rounds).(crashed := false)
  }

  /** Transactions that are not resumed keep their records. */
  lemma {:induction false} ResumeKeepsOthers(t: Tables, registry: seq<string>, pending: seq<string>, rounds: string -> AckRound, k: string)
    requires forall i :: 0 <= i < |pending| ==> pending[i] in t.transactions
    requires k in t.transactions && k !in pending
    ensures Resume(t, registry, pending, rounds).transactions[k] == t.transactions[k]
    decreases |pending|
  {
    if pending != [] {
      var next := Finish(t, pending[0], registry, rounds(pending[0]));
      ResumeKeepsOthers(next, registry, pending[1..], rounds, k);
    }
  }

  /** Recovery only appends to the history, and only entries for the
      transactions it resumes. */
  lemma {:induction false} ResumeAppendsOnly(t: Tables, registry: seq<string>, pending: seq<string>, rounds: string -> AckRound)
    requires forall i :: 0 <= i < |pending| ==> pending[i] in t.transactions
    ensures var r := Resume(t, registry, pending, rounds);
      && |t.history| <= |r.history| && r.history[..|t.history|] == t.history
      && forall j :: |t.history| <= j < |r.history| ==> r.history[j].txId in pending
    decreases |pending|
  {
    if pending != [] {
      var next := Finish(t, pending[0], registry, rounds(pending[0]));
      ResumeAppendsOnly(next, registry, pending[1..], rounds);
      var r := Resume(t, registry, pending, rounds);
      assert r == Resume(next, registry, pending[1..], rounds);
      assert r.history[..|t.history|] == r.history[..|next.history|][..|t.history|];
      forall j | |t.history| <= j < |r.history| ensures r.history[j].txId in pending {
        if j < |next.history| {
          assert r.history[j] == next.history[j];
        } else {
          assert r.history[j].txId in pending[1..];
        }
      }
    }
  }

  /** Transaction `tx`, whose record was `before` when it was resumed, is
      finished in `r` with its entry at position `at` of the history. */
  predicate Resolved(before: TxRecord, r: Tables, tx: string, at: nat, stamp: Timestamp) {
    && tx in r.transactions && at < |r.history|
    && var status := r.transactions[tx].status;
    && (status == Committed || status == Aborted)
    && r.history[at] == HistoryRecord(tx, status, before.data, stamp)
    && (status == Committed ==> Triage(before) == FinishCommit)
  }

  /** Without a crash during recovery the coordinator stays up and the
      history grows by exactly one entry per resumed transaction. */
  lemma {:induction false} ResumeStaysUp(t: Tables, registry: seq<string>, pending: seq<string>, rounds: string -> AckRound)
    requires forall i :: 0 <= i < |pending| ==> pending[i] in t.transactions
    requires !t.crashed
    requires forall tx :: rounds(tx).crash == NoAckCrash
    ensures var r := Resume(t, registry, pending, rounds);
      && !r.crashed
      && |r.history| == |t.history| + |pending|
      && r.history[..|t.history|] == t.history
    decreases |pending|
  {
    if pending != [] {
      var tx := pending[0];
      var next := Finish(t, tx, registry, rounds(tx));
      FinishResolves(t, tx, registry, rounds(tx));
      ResumeStaysUp(next, registry, pending[1..], rounds);
      var r := Resume(next, registry, pending[1..], rounds);
      assert r.history[..|t.history|] == r.history[..|next.history|][..|t.history|];
    }
  }

  /** Without a crash during recovery, the `i`-th resumed transaction ends
      COMMITTED or ABORTED with its own entry at position `i` of what
      recovery appends to the history, and COMMITTED only where the decision
      rule said commit. */
  lemma {:induction false} ResumeResolves(t: Tables, registry: seq<string>, pending: seq<string>, rounds: string -> AckRound, i: nat)
    requires forall j :: 0 <= j < |pending| ==> pending[j] in t.transactions
    requires Distinct(pending)
    requires !t.crashed
    requires forall tx :: rounds(tx).crash == NoAckCrash
    requires i < |pending|
    ensures Resolved(t.transactions[pending[i]], Resume(t, registry, pending, rounds), pending[i], |t.history| + i, rounds(pending[i]).stamp)
    decreases |pending|
  {
    if i == 0 {
      ResumeResolvesFirst(t, registry, pending, rounds);
    } else {
      var tx := pending[0];
      var next := Finish(t, tx, registry, rounds(tx));
      FinishAppendsOne(t, tx, registry, rounds(tx));
      var rest := pending[1..];
      assert pending[i] == rest[i - 1] && pending[i] != tx;
      assert next.transactions[pending[i]] == t.transactions[pending[i]];
      ResumeResolves(next, registry, rest, rounds, i - 1);
    }
  }

  /** The first resumed transaction is finished with the first appended
      entry, which the later ones leave in place. */
  lemma ResumeResolvesFirst(t: Tables, registry: seq<string>, pending: seq<string>, rounds: string -> AckRound)
    requires forall j :: 0 <= j < |pending| ==> pending[j] in t.transactions
    requires Distinct(pending)
    requires !t.crashed
    requires forall tx :: rounds(tx).crash == NoAckCrash
    requires pending != []
    ensures Resolved(t.transactions[pending[0]], Resume(t, registry, pending, rounds), pending[0], |t.history|, rounds(pending[0]).stamp)
  {
    var tx := pending[0];
    var next := Finish(t, tx, registry, rounds(tx));
    FinishResolves(t, tx, registry, rounds(tx));
    var rest := pending[1..];
    ResumeStaysUp(next, registry, rest, rounds);
    var r := Resume(next, registry, rest, rounds);
    assert Resume(t, registry, pending, rounds) == r;
    assert tx !in rest;
    ResumeKeepsOthers(next, registry, rest, rounds, tx);
    assert r.history[|t.history|] == r.history[..|next.history|][|t.history|];
  }

  /** A recovery without crashes leaves the coordinator up, finishes every
      unfinished transaction with one history entry each, in creation
      order, and leaves every other transaction as it was. */
  lemma RecoverResolves(t: Tables, registry: seq<string>, ids: seq<string>, rounds: string -> AckRound)
    requires Distinct(ids)
    requires forall tx :: rounds(tx).crash == NoAckCrash
    ensures var r := Recover(t, registry, ids, rounds);
      var pending := UnfinishedIds(ids, t.transactions);
      && !r.crashed
      && r.transactions.Keys == t.transactions.Keys
      && |r.history| == |t.history| + |pending|
      && r.history[..|t.history|] == t.history
      && (forall i :: 0 <= i < |pending| ==>
            Resolved(t.transactions[pending[i]], r, pending[i], |t.history| + i, rounds(pending[i]).stamp))
      && (forall tx :: tx in t.transactions && tx !in pending ==> r.transactions[tx] == t.transactions[tx])
  {
    var pending := UnfinishedIds(ids, t.transactions);
    var up := t.(crashed := false);
    var res := Resume(up, registry, pending, rounds);
    var r := Recover(t, registry, ids, rounds);
    assert r.transactions == res.transactions && r.history == res.history && !r.crashed;
    assert up.transactions == t.transactions && up.history == t.history;
    ResumeStaysUp(up, registry, pending, rounds);
    forall i | 0 <= i < |pending|
      ensures Resolved(t.transactions[pending[i]], r, pending[i], |t.history| + i, rounds(pending[i]).stamp)
    {
      ResumeResolves(up, registry, pending, rounds, i);
    }
    forall tx | tx in t.transactions && tx !in pending
      ensures r.transactions[tx] == t.transactions[tx]
    {
      ResumeKeepsOthers(up, registry, pending, rounds, tx);
    }
  }

  /** What a recovery without crashes decides: transactions that had not
      reached PREPARING are aborted, and only PREPARING or PREPARED ones
      with a complete all-yes CanCommit table are committed. */
  lemma RecoverDecisions(t: Tables, registry: seq<string>, ids: seq<string>, rounds: string -> AckRound, tx: string)
    requires Distinct(ids)
    requires forall tx :: rounds(tx).crash == NoAckCrash
    requires tx in ids && tx in t.transactions && Unfinished(t.transactions[tx].status)
    ensures var before := t.transactions[tx];
      var status := Recover(t, registry, ids, rounds).transactions[tx].status;
      && (status == Committed || status == Aborted)
      && (before.status == Waiting || before.status == Waited ==> status == Aborted)
      && (status == Committed ==>
            && (before.status == Preparing || before.status == Prepared)
            && |before.votes| == |before.participants| && AllTrue(before.votes))
  {
    var pending := UnfinishedIds(ids, t.transactions);
    var up := t.(crashed := false);
    var i := IndexOf(pending, tx);
    ResumeResolves(up, registry, pending, rounds, i);
    var res := Resume(up, registry, pending, rounds);
    assert Recover(t, registry, ids, rounds).transactions == res.transactions;
    TriageOfUnfinished(t.transactions[tx]);
  }

  /** The position of an element of a sequence. */
  function IndexOf(s: seq<string>, x: string): (i: nat)
    requires x in s
    ensures i < |s| && s[i] == x
  {
    if s[0] == x then 0 else 1 + IndexOf(s[1..], x)
  }
}
