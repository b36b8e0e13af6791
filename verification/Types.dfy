/** Values shared by every part of the model: node ids, log entries and protocol messages. */
module Types {
  /** Node ids; 0 stands for "nobody", as in `vote_` and `lead_`. */
  type Id = nat

  type Byte = b: int | 0 <= b < 256

  datatype Option<T> = None | Some(value: T)

  datatype EntryType = EntryNormal | EntryConfChange

  datatype Entry = Entry(term: nat, index: nat, typ: EntryType, data: seq<Byte>)

  /** What a client hands to the leader: the leader fills in term and index. */
  datatype Payload = Payload(typ: EntryType, data: seq<Byte>)

  /** The messages of the replication and election protocol.  The source uses one
      struct with a type tag; each constructor here keeps the fields its tag uses. */
  datatype Message =
    | Vote(from: Id, to: Id, term: nat, index: nat, logTerm: nat)
    | VoteResp(from: Id, to: Id, term: nat, reject: bool)
    | PreVote(from: Id, to: Id, term: nat, index: nat, logTerm: nat)
    | PreVoteResp(from: Id, to: Id, term: nat, reject: bool)
    | App(from: Id, to: Id, term: nat, index: nat, logTerm: nat, entries: seq<Entry>, commit: nat)
    | AppResp(from: Id, to: Id, term: nat, index: nat, reject: bool, rejectHint: nat)
    | Heartbeat(from: Id, to: Id, term: nat, commit: nat)
    | HeartbeatResp(from: Id, to: Id, term: nat)
    | Prop(from: Id, to: Id, term: nat, payloads: seq<Payload>)

  /** What a node must not forget. */
  datatype HardState = HardState(term: nat, vote: Id, commit: nat) {
    predicate IsEmpty() { term == 0 && vote == 0 && commit == 0 }
  }

  function Min(a: nat, b: nat): (m: nat)
    ensures m <= a && m <= b && (m == a || m == b)
  {
    if a <= b then a else b
  }

  function Max(a: nat, b: nat): (m: nat)
    ensures a <= m && b <= m && (m == a || m == b)
  {
    if a <= b then b else a
  }
}
