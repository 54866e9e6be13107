/** The owner of a Raft node: it takes what is ready, sends it, and applies what is committed. */
module RaftHost {
  import opened RaftTypes
  import Spec = RaftSpec
  import opened RaftMachine

  /** Entries that the storage is given: all but the no-ops. */
  function Commands(es: seq<LogEntry>): seq<LogEntry> {
    if es == [] then []
    else Commands(es[..|es| - 1]) + if es[|es| - 1].kind == EntryNoop then [] else [es[|es| - 1]]
  }

  lemma {:induction false} CommandsAppend(a: seq<LogEntry>, b: seq<LogEntry>)
    ensures Commands(a + b) == Commands(a) + Commands(b)
  {
    if b == [] {
      assert a + b == a;
    } else {
      assert (a + b)[..|a + b| - 1] == a + b[..|b| - 1];
      CommandsAppend(a, b[..|b| - 1]);
    }
  }

  /** The commands are the entries that are not no-ops, each once and in order: such an entry comes after
      the commands among the entries before it, and there are no others. */
  lemma {:induction false} CommandsInOrder(es: seq<LogEntry>, i: nat)
    requires i < |es| && es[i].kind != EntryNoop
    ensures |Commands(es[..i])| < |Commands(es)| && Commands(es)[|Commands(es[..i])|] == es[i]
  {
    var k := |es| - 1;
    if i < k {
      CommandsInOrder(es[..k], i);
      assert es[..k][..i] == es[..i];
    }
  }

  lemma {:induction false} CommandAt(es: seq<LogEntry>, x: nat) returns (i: nat)
    requires x < |Commands(es)|
    ensures i < |es| && es[i] == Commands(es)[x] && es[i].kind != EntryNoop && |Commands(es[..i])| == x
  {
    var k := |es| - 1;
    if x < |Commands(es[..k])| {
      i := CommandAt(es[..k], x);
      assert es[..k][..i] == es[..i];
    } else {
      i := k;
    }
  }

  /** The owner is in step with the log: it has applied exactly the first `applied` entries. */
  ghost predicate InStep(n: Node, appliedIndex: nat, storage: seq<LogEntry>) {
    && Spec.Numbers(n.log) && n.applied <= n.committed <= |n.log|
    && appliedIndex == n.applied
    && storage == Commands(n.log[..n.applied])
  }

  /** Walking what is ready brings the owner in step with the committed entries. */
  lemma RoundInStep(n: Node, appliedIndex: nat, storage: seq<LogEntry>, es: seq<LogEntry>)
    requires InStep(n, appliedIndex, storage) && |es| > 0 && es == Spec.ReadyEntries(n)
    ensures forall i :: 0 <= i < |es| ==> es[i].index == appliedIndex + 1 + i
    ensures appliedIndex + |es| == n.committed
    ensures InStep(n.(applied := n.committed), n.committed, storage + Commands(es))
  {
    ReadyIsPart(n);
    assert n.log[..n.applied] + es == n.log[..n.committed];
    CommandsAppend(n.log[..n.applied], es);
  }

  lemma ReadyIsPart(n: Node)
    requires n.applied <= n.committed <= |n.log|
    ensures Spec.ReadyEntries(n) == n.log[n.applied..n.committed]
  {}

  lemma SliceAbove(log: seq<LogEntry>, k: nat, last: nat)
    requires k <= last <= |log|
    ensures log[k..last] == if last > k then Spec.Slice(log, k + 1, last + 1) else []
  {}

  class RaftNode {
    const raft: Raft
    var appliedIndex: nat
    var wal: seq<LogEntry>
    /** What the storage has been told to apply, and what has been handed to the transport. */
    var storage: seq<LogEntry>
    var sent: seq<Message>

    ghost predicate Valid()
      reads this, raft, raft.log, raft.progress.Values
    {
      raft.Valid() && InStep(raft.View(), appliedIndex, storage)
    }

    constructor (config: Config, electionTick: Ticks, heartbeatTick: nat)
      ensures Valid() && fresh(raft) && raft.View() == Spec.NewNode(config)
      ensures storage == [] && sent == [] && wal == []
    {
      raft := new Raft(config, electionTick, heartbeatTick);
      appliedIndex, wal, storage, sent := 0, [], [], [];
    }

    /** Take what is ready: unapplied entries, outgoing messages and newly committed entries. */
    method TakeReady() returns (entries: seq<LogEntry>, ms: seq<Message>, newly: seq<LogEntry>)
      requires Valid()
      modifies raft`msgs
      ensures Valid() && raft.View() == old(raft.View()).(msgs := []) && ms == old(raft.msgs)
      ensures raft.progress == old(raft.progress)
      ensures newly == old(raft.View().log[raft.View().applied..raft.View().committed])
      ensures entries == old(raft.View().log[raft.View().applied..])
    {
      entries := EntriesUpTo(raft.log.LastIndex());
      newly := EntriesUpTo(raft.log.committed);
      ms := raft.TakeMessages();
    }

    /** The entries above the applied index, up to another. */
    method EntriesUpTo(last: nat) returns (entries: seq<LogEntry>)
      requires raft.log.Valid() && raft.log.applied <= last <= |raft.log.Log()|
      ensures entries == raft.log.Log()[raft.log.applied..last]
    {
      entries := [];
      SliceAbove(raft.log.Log(), raft.log.applied, last);
      if last > raft.log.applied {
        entries := raft.log.Entries(raft.log.applied + 1, last + 1);
      }
    }

    /** Walk entries in order, and give the storage those that are not no-ops. */
    method Walk(es: seq<LogEntry>)
      requires forall i :: 0 <= i < |es| ==> es[i].index == appliedIndex + 1 + i
      modifies this
      ensures appliedIndex == old(appliedIndex) + |es|
      ensures storage == old(storage) + Commands(es) && sent == old(sent) && wal == old(wal)
    {
      for i := 0 to |es|
        invariant storage == old(storage) + Commands(es[..i]) && sent == old(sent) && wal == old(wal)
        invariant appliedIndex == old(appliedIndex) + i
      {
        var entry := es[i];
        assert es[..i + 1][..i] == es[..i];
        if entry.kind == EntryNoop {
          appliedIndex := entry.index;
          continue;
        }
        storage := storage + [entry];
        appliedIndex := entry.index;
      }
      assert es[..|es|] == es;
    }

    method ApplyEntries(es: seq<LogEntry>)
      requires Valid() && |es| > 0 && es == Spec.ReadyEntries(raft.View())
      modifies this, raft.log
      ensures Valid() && raft.View() == old(raft.View()).(applied := old(raft.log.committed))
      ensures storage == old(storage) + Commands(es) && sent == old(sent) && wal == old(wal)
    {
      RoundInStep(raft.View(), appliedIndex, storage, es);
      Walk(es);
      raft.log.AppliedTo(appliedIndex);
    }

    /** One round: the node ends up as `TakeReady` says, its messages are sent, and the storage has been
        given exactly the commands among the log entries up to the applied index, each once, in order.
        The write-ahead log grows by every entry above the applied index, so an entry that is not applied
        at once is written again in the next round. */
    method ProcessReady()
      requires Valid()
      modifies this, raft`msgs, raft.log
      ensures Valid() && raft.View() == Spec.TakeReady(old(raft.View()))
      ensures sent == old(sent) + old(raft.msgs)
      ensures wal == old(wal) + old(raft.View().log[raft.View().applied..])
      ensures storage == Commands(raft.View().log[..raft.View().applied])
    {
      ghost var n := raft.View();
      ReadyIsPart(n);
      var entries, ms, newly := TakeReady();
      if |entries| > 0 {
        wal := wal + entries;
      }
      sent := sent + ms;
      assert raft.View() == n.(msgs := []) && Valid();
      if |newly| > 0 {
        ApplyEntries(newly);
      }
    }
  }
}
