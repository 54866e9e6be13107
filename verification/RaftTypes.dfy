/**
 Values shared by the Raft model: log entries, messages, and the value a node's fields denote.

 Node names are only ever compared for equality, so the model numbers them; 0 plays the part of
 the empty name.  Indices and terms are unbounded naturals.
 */
module RaftTypes {

  type NodeId = nat

  const NoNode: NodeId := 0

  newtype Byte = x: int | 0 <= x < 256

  datatype EntryType = EntryNormal | EntryConfig | EntryBarrier | EntryNoop

  datatype LogEntry = LogEntry(index: nat, term: nat, kind: EntryType, data: seq<Byte>)

  datatype Role = Follower | Candidate | Leader

  datatype ProgressState = Probe | Replicate | Snapshotting

  /** What a leader knows about one member: the next index to send and the highest index known stored. */
  datatype Track = Track(next: nat, matched: nat, state: ProgressState)

  datatype Message =
    | Heartbeat(from: NodeId, to: NodeId, term: nat, commit: nat)
    | HeartbeatRsp(from: NodeId, to: NodeId, term: nat, commit: nat)
    | Append(from: NodeId, to: NodeId, term: nat,
             logIndex: nat, logTerm: nat, entries: seq<LogEntry>, commit: nat)
    | AppendRsp(from: NodeId, to: NodeId, term: nat,
                index: nat, reject: bool, conflictIndex: nat, conflictTerm: nat)
    | Vote(from: NodeId, to: NodeId, term: nat, lastLogIndex: nat, lastLogTerm: nat)
    | VoteRsp(from: NodeId, to: NodeId, term: nat, granted: bool)
    | Propose(from: NodeId, to: NodeId, term: nat, entries: seq<LogEntry>)
    | Unreachable(from: NodeId, to: NodeId, term: nat)

  datatype Config = Config(id: NodeId, peers: seq<NodeId>, maxEntries: nat)

  /** The fields of one node.  `log[i]` is the entry at index i + 1; the sentinel at index 0 is left out. */
  datatype Node = Node(
    cfg: Config,
    term: nat,
    vote: NodeId,
    role: Role,
    lead: NodeId,
    votes: map<NodeId, bool>,
    progress: map<NodeId, Track>,
    log: seq<LogEntry>,
    committed: nat,
    applied: nat,
    msgs: seq<Message>)

  datatype StepError = NoError | NoLeaderKnown | ElectionInProgress | EmptyProposal
}
