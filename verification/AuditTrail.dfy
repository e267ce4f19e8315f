/** The in-memory audit log: a bounded queue that forgets its oldest entries. */
module AuditTrail {
  import opened Options

  datatype Entry = Entry(
    verb: string, path: string, status: int, keyId: Option<string>, clientIp: Option<string>, failed: bool)

  /** The last `n` elements, or all of them when there are fewer. */
  function LastN<T>(s: seq<T>, n: nat): (r: seq<T>)
    ensures |r| == if |s| <= n then |s| else n
    ensures forall i :: 0 <= i < |r| ==> r[i] == s[|s| - |r| + i]
  {
    if |s| <= n then s else s[|s| - n..]
  }

  class AuditLog {
    const maxSize: nat
    var entries: seq<Entry>
    ghost var history: seq<Entry>  // everything recorded since creation or the last clear

    ghost predicate Valid()
      reads this
    {
      entries == LastN(history, maxSize)
    }

    constructor (maxSize: nat)
      ensures Valid() && this.maxSize == maxSize && history == []
    {
      this.maxSize := maxSize;
      entries, history := [], [];
    }

    method Record(entry: Entry)
      requires Valid()
      modifies this
      ensures Valid() && history == old(history) + [entry]
    {
      entries := entries + [entry];
      if |entries| > maxSize {
        entries := entries[1..];
      }
      history := history + [entry];
    }

    /** Every log with at least one slot shows the newest record, last. */
    method All() returns (list: seq<Entry>)
      requires Valid()
      ensures list == LastN(history, maxSize)
      ensures |list| == if |history| <= maxSize then |history| else maxSize
      ensures forall i :: 0 <= i < |list| ==> list[i] == history[|history| - |list| + i]
    {
      list := entries;
    }

    method Clear()
      requires Valid()
      modifies this
      ensures Valid() && history == []
    {
      entries, history := [], [];
    }
  }
}
