/** The log of a Raft node, kept in place behind a sentinel entry at index 0. */
module RaftLogs {
  import opened RaftTypes
  import opened RaftSpec

  /** How many of the match indices reach n. */
  function CountAtLeast(ms: seq<nat>, n: nat): nat {
    if ms == [] then 0
    else CountAtLeast(ms[..|ms| - 1], n) + if ms[|ms| - 1] >= n then 1 else 0
  }

  lemma CountOfPrefix(ms: seq<nat>, k: nat, n: nat)
    requires k < |ms|
    ensures CountAtLeast(ms[..k + 1], n) == CountAtLeast(ms[..k], n) + if ms[k] >= n then 1 else 0
  {
    assert ms[..k + 1][..k] == ms[..k];
  }

  /** The caller counts itself on top of the match indices, against a majority of one more. */
  predicate Qualifies(log: seq<LogEntry>, ms: seq<nat>, term: nat, n: nat) {
    1 + CountAtLeast(ms, n) >= (|ms| + 1) / 2 + 1 && TermAt(log, n) == term
  }

  class RaftLog {
    var entries: seq<LogEntry>
    var committed: nat
    var applied: nat

    ghost predicate Valid()
      reads this
    {
      |entries| >= 1
    }

    /** The stored entries, without the sentinel. */
    ghost function Log(): seq<LogEntry>
      requires Valid()
      reads this
    {
      entries[1..]
    }

    constructor ()
      ensures Valid() && Log() == [] && committed == 0 && applied == 0
    {
      entries := [LogEntry(0, 0, EntryNormal, [])];
      committed := 0;
      applied := 0;
    }

    function LastIndex(): (i: nat)
      requires Valid()
      reads this
      ensures i == |Log()|
    {
      |entries| - 1
    }

    function Term(index: nat): (t: nat)
      requires Valid()
      reads this
      ensures t == TermAt(Log(), index)
    {
      if index == 0 then 0
      else if index >= |entries| then 0
      else entries[index].term
    }

    method Append(es: seq<LogEntry>)
      requires Valid() && OneBased(es)
      modifies this
      ensures Valid() && Log() == AppendLog(old(Log()), es)
      ensures committed == old(committed) && applied == old(applied)
    {
      ghost var log := Log();
      for i := 0 to |es|
        invariant entries == old(entries) && committed == old(committed) && applied == old(applied)
        invariant OneBased(es[i..]) && AppendLog(log, es) == AppendLog(log, es[i..])
      {
        var entry := es[i];
        assert es[i..][0] == entry && es[i..][1..] == es[i + 1..];
        if entry.index <= LastIndex() {
          if Term(entry.index) == entry.term {
            continue;
          }
          assert entries[..entry.index][1..] == log[..entry.index - 1];
          entries := entries[..entry.index];
        }
        entries := entries + es[i..];
        return;
      }
      assert es[|es|..] == [];
    }

    /** The caller numbers the entry; a wrong number is a programming error. */
    method AppendOne(entry: LogEntry)
      requires Valid() && entry.index == LastIndex() + 1
      modifies this
      ensures Valid() && Log() == old(Log()) + [entry]
      ensures committed == old(committed) && applied == old(applied)
    {
      entries := entries + [entry];
    }

    /** Raise the commit index as far as entries are stored; returns the entries newly covered. */
    method CommitTo(newCommitted: nat) returns (es: seq<LogEntry>)
      requires Valid()
      modifies this
      ensures Valid() && Log() == old(Log()) && applied == old(applied)
      ensures committed == RaftSpec.CommitTo(Log(), old(committed), newCommitted)
      ensures es == if newCommitted <= old(committed) then [] else Slice(Log(), old(committed) + 1, committed + 1)
    {
      if newCommitted <= committed {
        return [];
      }
      var to := newCommitted;
      if to > LastIndex() {
        to := LastIndex();
      }
      var from := committed + 1;
      committed := to;
      es := Entries(from, to + 1);
    }

    method AppliedTo(index: nat)
      requires index <= committed
      modifies this
      ensures applied == index && entries == old(entries) && committed == old(committed)
    {
      applied := index;
    }

    method Entries(lo: nat, hi: nat) returns (es: seq<LogEntry>)
      requires Valid()
      ensures es == Slice(Log(), lo, hi)
    {
      if lo >= hi {
        return [];
      }
      var from, to := lo, hi;
      if from < 1 {
        from := 1;
      }
      if to > LastIndex() + 1 {
        to := LastIndex() + 1;
      }
      if from >= |entries| {
        return [];
      }
      if from >= to {
        return [];
      }
      es := entries[from..to];
      assert es == Log()[from - 1..to - 1];
    }

    predicate IsUpToDate(lastIndex: nat, lastTerm: nat)
      requires Valid()
      reads this
      ensures IsUpToDate(lastIndex, lastTerm) == UpToDate(Log(), lastIndex, lastTerm)
    {
      var myLastTerm := Term(LastIndex());
      var myLastIndex := LastIndex();
      if lastTerm != myLastTerm then lastTerm > myLastTerm else lastIndex >= myLastIndex
    }

    /** Commit the largest index above the commit index that qualifies, if there is one. */
    method MaybeCommit(ms: seq<nat>, currentTerm: nat) returns (ok: bool)
      requires Valid()
      modifies this
      ensures Valid() && entries == old(entries) && applied == old(applied)
      ensures ok <==> exists n: nat :: old(committed) < n <= |Log()| && Qualifies(Log(), ms, currentTerm, n)
      ensures !ok ==> committed == old(committed)
      ensures ok ==> old(committed) < committed <= |Log()| && Qualifies(Log(), ms, currentTerm, committed)
      ensures ok ==> forall n: nat :: committed < n <= |Log()| ==> !Qualifies(Log(), ms, currentTerm, n)
    {
      var n := LastIndex();
      while n > committed
        invariant entries == old(entries) && applied == old(applied) && committed == old(committed)
        invariant n <= |Log()|
        invariant forall k: nat :: n < k <= |Log()| ==> !Qualifies(Log(), ms, currentTerm, k)
      {
        var count := 1;
        for i := 0 to |ms|
          modifies {}
          invariant count == 1 + CountAtLeast(ms[..i], n)
        {
          CountOfPrefix(ms, i, n);
          if ms[i] >= n {
            count := count + 1;
          }
        }
        assert ms[..|ms|] == ms;
        var majority := (|ms| + 1) / 2 + 1;
        if count >= majority && Term(n) == currentTerm {
          committed := n;
          assert Qualifies(Log(), ms, currentTerm, n);
          return true;
        }
        n := n - 1;
      }
      return false;
    }
  }
}
