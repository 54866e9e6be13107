/** A cluster of nodes over a network that may lose, delay, reorder and duplicate messages, and its runs. */
module RaftCluster {
  import opened RaftTypes
  import opened RaftSpec

  /** `walked[id]` is what the apply loop of node `id` has walked so far. */
  datatype Cluster = Cluster(nodes: map<NodeId, Node>, walked: map<NodeId, seq<LogEntry>>, net: set<Message>)

  datatype Event =
    | Deliver(m: Message)
    | Local(id: NodeId, m: Message)
    | Timer(id: NodeId)
    | Ready(id: NodeId)

  ghost predicate Init(c: Cluster) {
    && NoNode !in c.nodes
    && c.net == {}
    && c.walked.Keys == c.nodes.Keys
    && forall id :: id in c.nodes ==>
         c.nodes[id].cfg.id == id && Configured(c.nodes.Keys, c.nodes[id].cfg)
         && c.nodes[id] == NewNode(c.nodes[id].cfg) && c.walked[id] == []
  }

  /** A message a node's owner hands to it directly: it carries no term. */
  predicate IsLocal(m: Message) {
    m.term == 0 && (m.Propose? || m.Unreachable?)
  }

  function Put(c: Cluster, id: NodeId, n: Node): Cluster {
    c.(nodes := c.nodes[id := n])
  }

  /** One event.  A sent message stays in the network, so it may arrive any number of times or never.
      The conditions WellFormed and Tracked make `Step` defined; they hold whenever they are needed. */
  ghost predicate Next(c: Cluster, c': Cluster, e: Event) {
    match e
    case Deliver(m) =>
      && m in c.net && m.to in c.nodes && WellFormed(m) && Tracked(c.nodes[m.to])
      && c' == Put(c, m.to, Step(c.nodes[m.to], m))
    case Local(id, m) =>
      && id in c.nodes && IsLocal(m) && Tracked(c.nodes[id])
      && c' == Put(c, id, Step(c.nodes[id], m))
    case Timer(id) =>
      && id in c.nodes
      && c' == Put(c, id, TimerFires(c.nodes[id]))
    case Ready(id) =>
      && id in c.nodes && id in c.walked
      && c' == Put(c, id, TakeReady(c.nodes[id])).(
                 walked := c.walked[id := c.walked[id] + ReadyEntries(c.nodes[id])],
                 net := c.net + set m | m in c.nodes[id].msgs)
  }

  ghost predicate IsRun(cs: seq<Cluster>, es: seq<Event>) {
    && |cs| == |es| + 1
    && Init(cs[0])
    && forall i :: 0 <= i < |es| ==> Next(cs[i], cs[i + 1], es[i])
  }

  /** The states of these members. */
  ghost function StatesOf(c: Cluster, ps: seq<NodeId>): seq<Node>
    requires forall j :: 0 <= j < |ps| ==> ps[j] in c.nodes
  {
    seq(|ps|, j requires 0 <= j < |ps| => c.nodes[ps[j]])
  }
}
