/**
 Network totals: each of the six output counters is the wrap-around sum of one
 per-interface counter over every interface in the record's `networks` map.
 Go ranges over that map in an unspecified order; the method below picks the
 next interface arbitrarily, so its postcondition holds for every order.
 */
module Network {
  import opened GoInt
  import opened Records

  /** Names one of the six per-interface counters. */
  datatype NetField = RxBytes | RxErrors | RxDropped | TxBytes | TxErrors | TxDropped

  function Field(n: NetIface, f: NetField): u64
  {
    match f
    case RxBytes => n.rxBytes
    case RxErrors => n.rxErrors
    case RxDropped => n.rxDropped
    case TxBytes => n.txBytes
    case TxErrors => n.txErrors
    case TxDropped => n.txDropped
  }

  /** The output counter fed by input field `f`: Tx* become Send*, Rx* become Recv*. */
  function Total(t: ContainerNetStats, f: NetField): u64
  {
    match f
    case RxBytes => t.recvBytes
    case RxErrors => t.recvErrors
    case RxDropped => t.recvDropped
    case TxBytes => t.sendBytes
    case TxErrors => t.sendErrors
    case TxDropped => t.sendDropped
  }

  /** Reference sum of field `f` over all interfaces, taken in an unspecified order. */
  ghost function FieldSum(nets: map<string, NetIface>, f: NetField): u64
    decreases |nets|
  {
    if nets == map[] then 0
    else
      var k :| k in nets;
      assert |nets - {k}| == |nets| - 1 by { assert (nets - {k}).Keys == nets.Keys - {k}; }
      Add(Field(nets[k], f), FieldSum(nets - {k}, f))
  }

  /** Any interface may be taken out first: the sum does not depend on which. */
  lemma {:induction false} FieldSumRemove(nets: map<string, NetIface>, k: string, f: NetField)
    requires k in nets
    ensures FieldSum(nets, f) == Add(Field(nets[k], f), FieldSum(nets - {k}, f))
    decreases |nets|
  {
    var j :| j in nets && FieldSum(nets, f) == Add(Field(nets[j], f), FieldSum(nets - {j}, f));
    if j != k {
      var rest := nets - {j} - {k};
      assert nets - {k} - {j} == rest;
      assert |nets - {j}| == |nets| - 1 by { assert (nets - {j}).Keys == nets.Keys - {j}; }
      assert |nets - {k}| == |nets| - 1 by { assert (nets - {k}).Keys == nets.Keys - {k}; }
      FieldSumRemove(nets - {j}, k, f);
      FieldSumRemove(nets - {k}, j, f);
      AddAssoc(Field(nets[j], f), Field(nets[k], f), FieldSum(rest, f));
      AddAssoc(Field(nets[k], f), Field(nets[j], f), FieldSum(rest, f));
      AddComm(Field(nets[j], f), Field(nets[k], f));
    }
  }

  /** Adds one interface's counters into the running totals, as the Go loop body does. */
  function AddIface(t: ContainerNetStats, n: NetIface): (r: ContainerNetStats)
    ensures forall f :: Total(r, f) == Add(Total(t, f), Field(n, f))
  {
    ContainerNetStats(
      Add(t.sendBytes, n.txBytes), Add(t.sendDropped, n.txDropped), Add(t.sendErrors, n.txErrors),
      Add(t.recvBytes, n.rxBytes), Add(t.recvDropped, n.rxDropped), Add(t.recvErrors, n.rxErrors))
  }

  /** The network block of `getContainerStats`: range over the interfaces in
      whatever order the runtime picks and accumulate all six counters. */
  method SumNetworks(nets: map<string, NetIface>) returns (r: ContainerNetStats)
    ensures r.sendBytes == FieldSum(nets, TxBytes)
    ensures r.sendErrors == FieldSum(nets, TxErrors)
    ensures r.sendDropped == FieldSum(nets, TxDropped)
    ensures r.recvBytes == FieldSum(nets, RxBytes)
    ensures r.recvErrors == FieldSum(nets, RxErrors)
    ensures r.recvDropped == FieldSum(nets, RxDropped)
  {
    r := ZeroNetStats;
    var rest := nets;
    while rest != map[]
      invariant forall f :: Add(Total(r, f), FieldSum(rest, f)) == FieldSum(nets, f)
      decreases |rest|
    {
      var k :| k in rest;
      forall f
        ensures FieldSum(rest, f) == Add(Field(rest[k], f), FieldSum(rest - {k}, f))
      {
        FieldSumRemove(rest, k, f);
      }
      forall f
        ensures Add(Add(Total(r, f), Field(rest[k], f)), FieldSum(rest - {k}, f))
             == Add(Total(r, f), FieldSum(rest, f))
      {
        AddAssoc(Total(r, f), Field(rest[k], f), FieldSum(rest - {k}, f));
      }
      assert |rest - {k}| == |rest| - 1 by { assert (rest - {k}).Keys == rest.Keys - {k}; }
      r := AddIface(r, rest[k]);
      rest := rest - {k};
    }
  }

  // ---------------------------------------------------------------------------
  // Order independence, stated over explicit visiting orders
  // ---------------------------------------------------------------------------

  /** `order` lists every interface name of `nets` exactly once. */
  predicate IsEnumeration(order: seq<string>, nets: map<string, NetIface>)
  {
    && |order| == |nets|
    && (forall i :: 0 <= i < |order| ==> order[i] in nets)
    && (forall i, j :: 0 <= i < j < |order| ==> order[i] != order[j])
  }

  /** Sum of field `f` over the interfaces named by `order`. It is written as a
      right fold, which accumulates in the reverse of `order`; since every
      enumeration is covered below, Go's left-to-right accumulation is too. */
  function SumInOrder(nets: map<string, NetIface>, order: seq<string>, f: NetField): u64
    requires forall i :: 0 <= i < |order| ==> order[i] in nets
  {
    if |order| == 0 then 0
    else Add(Field(nets[order[0]], f), SumInOrder(nets, order[1..], f))
  }

  lemma {:induction false} SumInOrderFrame(nets: map<string, NetIface>, k: string, order: seq<string>, f: NetField)
    requires forall i :: 0 <= i < |order| ==> order[i] in nets && order[i] != k
    ensures SumInOrder(nets - {k}, order, f) == SumInOrder(nets, order, f)
  {
    if |order| > 0 {
      SumInOrderFrame(nets, k, order[1..], f);
    }
  }

  /** Visiting the interfaces in any order yields the reference sum. */
  lemma {:induction false} SumInAnyOrder(nets: map<string, NetIface>, order: seq<string>, f: NetField)
    requires IsEnumeration(order, nets)
    ensures SumInOrder(nets, order, f) == FieldSum(nets, f)
  {
    if |order| == 0 {
      assert nets == map[];
    } else {
      var k := order[0];
      var rest := nets - {k};
      assert |rest| == |nets| - 1 by { assert rest.Keys == nets.Keys - {k}; }
      assert forall i :: 0 <= i < |order[1..]| ==> order[1..][i] in rest by {
        forall i | 0 <= i < |order[1..]| ensures order[1..][i] in rest {
          assert order[1..][i] == order[i + 1] && order[i + 1] != order[0];
        }
      }
      assert IsEnumeration(order[1..], rest);
      SumInAnyOrder(rest, order[1..], f);
      SumInOrderFrame(nets, k, order[1..], f);
      FieldSumRemove(nets, k, f);
    }
  }

  /** Two visiting orders of the same interfaces give the same totals. */
  lemma OrderIrrelevant(nets: map<string, NetIface>, o1: seq<string>, o2: seq<string>, f: NetField)
    requires IsEnumeration(o1, nets) && IsEnumeration(o2, nets)
    ensures SumInOrder(nets, o1, f) == SumInOrder(nets, o2, f)
  {
    SumInAnyOrder(nets, o1, f);
    SumInAnyOrder(nets, o2, f);
  }

  /** Two interfaces with (rx = 100, tx = 50) and (rx = 30, tx = 70) give
      received bytes 130 and sent bytes 120. */
  lemma TwoInterfacesExample(nets: map<string, NetIface>)
    requires nets == map["eth0" := NetIface(100, 0, 0, 50, 0, 0), "eth1" := NetIface(30, 0, 0, 70, 0, 0)]
    ensures FieldSum(nets, RxBytes) == 130
    ensures FieldSum(nets, TxBytes) == 120
  {
    var one := map["eth1" := NetIface(30, 0, 0, 70, 0, 0)];
    assert nets - {"eth0"} == one;
    assert one - {"eth1"} == map[];
    FieldSumRemove(nets, "eth0", RxBytes);
    FieldSumRemove(one, "eth1", RxBytes);
    FieldSumRemove(nets, "eth0", TxBytes);
    FieldSumRemove(one, "eth1", TxBytes);
  }
}
