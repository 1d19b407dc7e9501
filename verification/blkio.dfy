/**
 Block-I/O totals: every `io_service_bytes_recursive` entry is classified by its
 op label. "read" adds `uint64(value)` to the input total, "write" adds it to
 the output total, and any other label adds nothing and produces one warning
 tagged with that label and the container ID.
 */
module Blkio {
  import opened GoInt
  import opened Records

  const ReadOp := "read"
  const WriteOp := "write"

  predicate IsKnownOp(op: string)
  {
    op == ReadOp || op == WriteOp
  }

  /** What entry `e` adds to the total kept for `op`. */
  function Contribution(e: BlkioEntry, op: string): u64
  {
    if e.op == op then ToUint64(e.value) else 0
  }

  /** Reference total for `op`: the wrap-around sum of `uint64(value)` over the
      entries labelled exactly `op`. */
  function OpSum(entries: seq<BlkioEntry>, op: string): u64
  {
    if |entries| == 0 then 0
    else Add(Contribution(entries[0], op), OpSum(entries[1..], op))
  }

  /** The warnings logged for `entries`, one per entry with an unknown label, in order. */
  function UnknownOps(entries: seq<BlkioEntry>, containerID: string): (ws: seq<Warning>)
    ensures |ws| <= |entries|
    ensures forall i :: 0 <= i < |ws| ==> ws[i].containerID == containerID && !IsKnownOp(ws[i].op)
  {
    if |entries| == 0 then []
    else
      (if IsKnownOp(entries[0].op) then [] else [UnknownBlkioOp(entries[0].op, containerID)])
      + UnknownOps(entries[1..], containerID)
  }

  /** Totals over a concatenation add up: the totals do not depend on how the
      entries are split between devices. */
  lemma {:induction false} OpSumAppend(a: seq<BlkioEntry>, b: seq<BlkioEntry>, op: string)
    ensures OpSum(a + b, op) == Add(OpSum(a, op), OpSum(b, op))
  {
    if |a| == 0 {
      assert a + b == b;
    } else {
      assert (a + b)[1..] == a[1..] + b;
      OpSumAppend(a[1..], b, op);
      AddAssoc(Contribution(a[0], op), OpSum(a[1..], op), OpSum(b, op));
    }
  }

  lemma {:induction false} UnknownOpsAppend(a: seq<BlkioEntry>, b: seq<BlkioEntry>, containerID: string)
    ensures UnknownOps(a + b, containerID) == UnknownOps(a, containerID) + UnknownOps(b, containerID)
  {
    if |a| == 0 {
      assert a + b == b;
    } else {
      assert (a + b)[1..] == a[1..] + b;
      UnknownOpsAppend(a[1..], b, containerID);
    }
  }

  /** The block-I/O loop of `getContainerStats`. */
  method TotalBlkio(entries: seq<BlkioEntry>, containerID: string)
    returns (input: u64, output: u64, warnings: seq<Warning>)
    ensures input == OpSum(entries, ReadOp)
    ensures output == OpSum(entries, WriteOp)
    ensures warnings == UnknownOps(entries, containerID)
  {
    input, output, warnings := 0, 0, [];
    var i := 0;
    while i < |entries|
      invariant 0 <= i <= |entries|
      invariant input == OpSum(entries[..i], ReadOp)
      invariant output == OpSum(entries[..i], WriteOp)
      invariant warnings == UnknownOps(entries[..i], containerID)
    {
      var e := entries[i];
      assert entries[..i + 1] == entries[..i] + [e];
      OpSumAppend(entries[..i], [e], ReadOp);
      OpSumAppend(entries[..i], [e], WriteOp);
      UnknownOpsAppend(entries[..i], [e], containerID);
      if e.op == ReadOp {
        input := Add(input, ToUint64(e.value));
      } else if e.op == WriteOp {
        output := Add(output, ToUint64(e.value));
      } else {
        warnings := warnings + [UnknownBlkioOp(e.op, containerID)];
      }
      i := i + 1;
    }
    assert entries[..i] == entries;
  }

  /** Inserting one entry anywhere changes the input total only if it is a read,
      the output total only if it is a write, and the warnings only if its label
      is unknown, in which case exactly one warning for it appears in place. */
  lemma EntryEffect(s: seq<BlkioEntry>, e: BlkioEntry, t: seq<BlkioEntry>, containerID: string)
    ensures OpSum(s + [e] + t, ReadOp)
         == (if e.op == ReadOp then Add(ToUint64(e.value), OpSum(s + t, ReadOp)) else OpSum(s + t, ReadOp))
    ensures OpSum(s + [e] + t, WriteOp)
         == (if e.op == WriteOp then Add(ToUint64(e.value), OpSum(s + t, WriteOp)) else OpSum(s + t, WriteOp))
    ensures UnknownOps(s + [e] + t, containerID)
         == UnknownOps(s, containerID)
            + (if IsKnownOp(e.op) then [] else [UnknownBlkioOp(e.op, containerID)])
            + UnknownOps(t, containerID)
  {
    assert [e][1..] == [];
    forall op | op == ReadOp || op == WriteOp
      ensures OpSum(s + [e] + t, op)
           == (if e.op == op then Add(ToUint64(e.value), OpSum(s + t, op)) else OpSum(s + t, op))
    {
      OpSumAppend(s + [e], t, op);
      OpSumAppend(s, [e], op);
      OpSumAppend(s, t, op);
      var a, c, b := OpSum(s, op), Contribution(e, op), OpSum(t, op);
      AddAssoc(a, c, b);
      AddComm(a, c);
      AddAssoc(c, a, b);
    }
    UnknownOpsAppend(s + [e], t, containerID);
    UnknownOpsAppend(s, [e], containerID);
  }

  /** No warning is logged exactly when every entry is a read or a write. */
  lemma {:induction false} NoWarningsIffAllKnown(entries: seq<BlkioEntry>, containerID: string)
    ensures UnknownOps(entries, containerID) == []
        <==> forall i :: 0 <= i < |entries| ==> IsKnownOp(entries[i].op)
  {
    if |entries| > 0 {
      NoWarningsIffAllKnown(entries[1..], containerID);
      if IsKnownOp(entries[0].op) {
        forall i | 0 < i < |entries| && !IsKnownOp(entries[i].op)
          ensures !IsKnownOp(entries[1..][i - 1].op)
        {
        }
      }
    }
  }

  /** A negative Go `int` value is not clamped: `uint64(v)` wraps it to v + 2^64. */
  lemma NegativeValueWraps(e: BlkioEntry)
    requires e.op == ReadOp && e.value < 0
    ensures OpSum([e], ReadOp) == e.value + TwoTo64
    ensures OpSum([e], WriteOp) == 0
  {
  }

  /** Read 500, write 200 and an unknown "trim" of 999 give input 500, output 200
      and one warning for "trim". */
  lemma ReadWriteTrimExample(id: string)
    ensures var entries := [BlkioEntry(8, 0, "read", 500), BlkioEntry(8, 0, "write", 200),
                            BlkioEntry(8, 0, "trim", 999)];
            && OpSum(entries, ReadOp) == 500
            && OpSum(entries, WriteOp) == 200
            && UnknownOps(entries, id) == [UnknownBlkioOp("trim", id)]
  {
    var entries := [BlkioEntry(8, 0, "read", 500), BlkioEntry(8, 0, "write", 200),
                    BlkioEntry(8, 0, "trim", 999)];
    var last := entries[1..][1..];
    assert last == [BlkioEntry(8, 0, "trim", 999)] && last[1..] == [];
    assert !IsKnownOp("trim");
    assert UnknownOps(last, id) == [UnknownBlkioOp("trim", id)];
    assert UnknownOps(entries[1..], id) == UnknownOps(last, id);
  }
}
