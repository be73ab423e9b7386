/** The message vocabulary shared by the coordinator and the participants:
    the eighteen message types with their wire names, the message envelope
    and its JSON object form, the transaction statuses the coordinator
    records, and the entries of the coordinator's decision history. */
module Protocol {

  datatype Option<T> = None | Some(value: T)

  // ---------------------------------------------------------------------
  // Message types

  datatype MessageType =
    | Prepare | Commit | CanCommit | PreCommit | DoCommit | Abort
    | CanCommitAbort | PreCommitAbort | HistoryResponse | QueryState
    | CanCommitVoteYes | CanCommitVoteNo | PreCommitVoteYes | PreCommitVoteNo
    | AckCommit | AckAbort | RequestHistory | StateResponse

  /** The string each message type travels as. */
  function Wire(t: MessageType): string {
    match t
    case Prepare => "PREPARE"
    case Commit => "COMMIT"
    case CanCommit => "CanCommit"
    case PreCommit => "PreCommit"
    case DoCommit => "DoCommit"
    case Abort => "ABORT"
    case CanCommitAbort => "CANCOMMIT_ABORT"
    case PreCommitAbort => "PRECOMMITABORT"
    case HistoryResponse => "HISTORY_RESPONSE"
    case QueryState => "QUERY_STATE"
    case CanCommitVoteYes => "CANCOMMIT_VOTE_YES"
    case CanCommitVoteNo => "CANCOMMIT_VOTE_NO"
    case PreCommitVoteYes => "PRECOMMIT_VOTE_YES"
    case PreCommitVoteNo => "PRECOMMIT_VOTE_NO"
    case AckCommit => "ACK_COMMIT"
    case AckAbort => "ACK_ABORT"
    case RequestHistory => "REQUEST_HISTORY"
    case StateResponse => "STATE_RESPONSE"
  }

  /** Looking a message type up by its wire string; only the eighteen wire
      strings name a type. */
  function ParseType(s: string): (r: Option<MessageType>)
    ensures r.Some? ==> Wire(r.value) == s
  {
    if s == "PREPARE" then Some(Prepare)
    else if s == "COMMIT" then Some(Commit)
    else if s == "CanCommit" then Some(CanCommit)
    else if s == "PreCommit" then Some(PreCommit)
    else if s == "DoCommit" then Some(DoCommit)
    else if s == "ABORT" then Some(Abort)
    else if s == "CANCOMMIT_ABORT" then Some(CanCommitAbort)
    else if s == "PRECOMMITABORT" then Some(PreCommitAbort)
    else if s == "HISTORY_RESPONSE" then Some(HistoryResponse)
    else if s == "QUERY_STATE" then Some(QueryState)
    else if s == "CANCOMMIT_VOTE_YES" then Some(CanCommitVoteYes)
    else if s == "CANCOMMIT_VOTE_NO" then Some(CanCommitVoteNo)
    else if s == "PRECOMMIT_VOTE_YES" then Some(PreCommitVoteYes)
    else if s == "PRECOMMIT_VOTE_NO" then Some(PreCommitVoteNo)
    else if s == "ACK_COMMIT" then Some(AckCommit)
    else if s == "ACK_ABORT" then Some(AckAbort)
    else if s == "REQUEST_HISTORY" then Some(RequestHistory)
    else if s == "STATE_RESPONSE" then Some(StateResponse)
    else None
  }

  /** The types the coordinator sends. */
  predicate ToParticipant(t: MessageType) {
    t in {Prepare, Commit, CanCommit, PreCommit, DoCommit, Abort,
          CanCommitAbort, PreCommitAbort, HistoryResponse, QueryState}
  }

  /** The votes participants send. */
  predicate IsVote(t: MessageType) {
    t in {CanCommitVoteYes, CanCommitVoteNo, PreCommitVoteYes, PreCommitVoteNo}
  }

  /** Every type is found again from its wire string. */
  lemma ParseWire(t: MessageType)
    ensures ParseType(Wire(t)) == Some(t)
  {
    if ToParticipant(t) {
      ParseRequestWire(t);
    } else if IsVote(t) {
      ParseVoteWire(t);
    } else if t == AckCommit || t == AckAbort {
      ParseAckWire(t);
    } else {
      assert t == RequestHistory || t == StateResponse;
      ParseHistoryWire(t);
    }
  }

  /** The lookup finds the coordinator's requests again from their wire strings. */
  lemma ParseRequestWire(t: MessageType)
    requires ToParticipant(t)
    ensures ParseType(Wire(t)) == Some(t)
  {
    if t == Prepare {
    } else if t == Commit {
    } else if t == CanCommit {
    } else if t == PreCommit {
    } else if t == DoCommit {
    } else if t == Abort {
    } else if t == CanCommitAbort {
    } else if t == PreCommitAbort {
    } else if t == HistoryResponse {
    } else {
      assert t == QueryState;
    }
  }

  /** The lookup finds the votes again from their wire strings. */
  lemma ParseVoteWire(t: MessageType)
    requires IsVote(t)
    ensures ParseType(Wire(t)) == Some(t)
  {
    if t == CanCommitVoteYes {
    } else if t == CanCommitVoteNo {
    } else if t == PreCommitVoteYes {
    } else {
      assert t == PreCommitVoteNo;
    }
  }

  /** The lookup finds the acknowledgements again from their wire strings. */
  lemma ParseAckWire(t: MessageType)
    requires t == AckCommit || t == AckAbort
    ensures ParseType(Wire(t)) == Some(t)
  {
  }

  /** The lookup finds the history request and the state response again from their wire strings. */
  lemma ParseHistoryWire(t: MessageType)
    requires t == RequestHistory || t == StateResponse
    ensures ParseType(Wire(t)) == Some(t)
  {
  }

  /** Different types travel as different strings. */
  lemma WireInjective(a: MessageType, b: MessageType)
    requires Wire(a) == Wire(b)
    ensures a == b
  {
    ParseWire(a);
    ParseWire(b);
  }

  /** A lookup fails exactly on the strings that are no type's wire name. */
  lemma ParseTypeFails(s: string)
    ensures ParseType(s).None? <==> forall t :: Wire(t) != s
  {
    if ParseType(s).None? {
      forall t ensures Wire(t) != s {
        ParseWire(t);
      }
    }
  }

  // ---------------------------------------------------------------------
  // JSON values and the message envelope

  /** A decoded JSON value. */
  datatype Value =
    | Null
    | Bool(b: bool)
    | Int(i: int)
    | Str(s: string)
    | Arr(items: seq<Value>)
    | Obj(fields: map<string, Value>)

  /** A decoded JSON object. */
  type Record = map<string, Value>

  /** The payload carried by a message. */
  type Data = map<string, Value>

  /** Python truthiness of a JSON value. */
  predicate Falsy(v: Value) {
    || v == Null || v == Bool(false) || v == Int(0) || v == Str("")
    || v == Arr([]) || v == Obj(map[])
  }

  datatype Message = Message(msgType: MessageType, txId: string, data: Data)

  /** Building a message: an absent or empty payload becomes the empty
      object, any other payload is kept. */
  function NewMessage(t: MessageType, txId: string, data: Option<Data>): (m: Message)
    ensures m.msgType == t && m.txId == txId
    ensures data.None? ==> m.data == map[]
    ensures data.Some? ==> m.data == data.value
  {
    Message(t, txId, if data.Some? && data.value != map[] then data.value else map[])
  }

  const MsgTypeKey: string := "msg_type"
  const TxIdKey: string := "transaction_id"
  const DataKey: string := "data"

  /** The JSON object a message is sent as: exactly the three envelope
      keys. */
  function Encode(m: Message): (r: Record)
    ensures r.Keys == {MsgTypeKey, TxIdKey, DataKey}
  {
    map[MsgTypeKey := Str(Wire(m.msgType)), TxIdKey := Str(m.txId), DataKey := Obj(m.data)]
  }

  datatype DecodeError =
    | MissingType            // no "msg_type" key
    | UnknownType            // "msg_type" is not a wire string
    | MissingTransactionId   // no "transaction_id" key
    | NonStringTransactionId // "transaction_id" is not a string
    | NonObjectData          // "data" is a non-empty value that is not an object

  datatype Decoded = Ok(msg: Message) | Malformed(error: DecodeError)

  /** Reading a message back from its JSON object.  The checks happen in the
      order the fields are read: type, transaction id, payload.  A missing
      or empty payload is the empty object. */
  function Decode(r: Record): (d: Decoded)
    ensures d.Ok? ==> MsgTypeKey in r && r[MsgTypeKey] == Str(Wire(d.msg.msgType))
    ensures d.Ok? ==> TxIdKey in r && r[TxIdKey] == Str(d.msg.txId)
    ensures d.Ok? ==> if DataKey in r && !Falsy(r[DataKey]) then r[DataKey] == Obj(d.msg.data)
                      else d.msg.data == map[]
  {
    if MsgTypeKey !in r then Malformed(MissingType)
    else if !r[MsgTypeKey].Str? || ParseType(r[MsgTypeKey].s).None? then Malformed(UnknownType)
    else if TxIdKey !in r then Malformed(MissingTransactionId)
    else if !r[TxIdKey].Str? then Malformed(NonStringTransactionId)
    else
      var t := ParseType(r[MsgTypeKey].s).value;
      var payload := if DataKey in r then r[DataKey] else Obj(map[]);
      if Falsy(payload) then Ok(Message(t, r[TxIdKey].s, map[]))
      else if payload.Obj? then Ok(Message(t, r[TxIdKey].s, payload.fields))
      else Malformed(NonObjectData)
  }

  /** Decoding what was encoded gives the message back. */
  lemma DecodeEncode(m: Message)
    ensures Decode(Encode(m)) == Ok(m)
  {
    var r := Encode(m);
    ParseWire(m.msgType);
    assert r[MsgTypeKey] == Str(Wire(m.msgType));
    assert r[TxIdKey] == Str(m.txId);
    assert r[DataKey] == Obj(m.data);
  }

  /** A decoded message, encoded again, agrees with the object it came from
      on every envelope key whose value was meaningful. */
  lemma EncodeDecode(r: Record)
    requires Decode(r).Ok?
    ensures var e := Encode(Decode(r).msg);
      && e[MsgTypeKey] == r[MsgTypeKey]
      && e[TxIdKey] == r[TxIdKey]
      && (DataKey in r && !Falsy(r[DataKey]) ==> e[DataKey] == r[DataKey])
  {
  }

  // ---------------------------------------------------------------------
  // Transactions and the decision history

  /** The coordinator's view of a transaction. */
  datatype TxStatus =
    | Waiting | Waited | Preparing | Prepared
    | Committing | Committed | Aborting | Aborted

  /** The status names the coordinator stores. */
  function StatusName(s: TxStatus): string {
    match s
    case Waiting => "WAITING"
    case Waited => "WAITED"
    case Preparing => "PREPARING"
    case Prepared => "PREPARED"
    case Committing => "COMMITTING"
    case Committed => "COMMITTED"
    case Aborting => "ABORTING"
    case Aborted => "ABORTED"
  }

  /** Transaction data entered at the coordinator: text keys and values. */
  type Payload = map<string, string>

  /** The same data as a message payload. */
  function Lift(p: Payload): (d: Data)
    ensures d.Keys == p.Keys
    ensures forall k :: k in p ==> d[k] == Str(p[k])
  {
    map k | k in p :: Str(p[k])
  }

  /** Seconds since the epoch, as the coordinator's clock reports it. */
  type Timestamp = real

  /** One entry of the coordinator's decision history. */
  datatype HistoryRecord = HistoryRecord(txId: string, status: TxStatus, data: Payload, timestamp: Timestamp)
}
