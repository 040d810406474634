/**
 The node list of the monitor shows a tree of hosts, instances and nodes as flat rows.
 */
module NodeRows {
  import opened Basics

  /** The maps of the source in key order; an instance maps the ids of its nodes. */
  datatype Inst = Inst(id: nat, nodes: seq<nat>)

  datatype Host = Host(id: nat, instances: seq<Inst>)

  datatype Item = HostItem(host: nat) | InstItem(host: nat, inst: nat) | NodeItem(host: nat, inst: nat, node: nat)

  datatype Kind = HostKind | InstKind | NodeKind

  // Row counts ------------------------------------------------------------------------------

  function InstTotal(i: Inst): nat { |i.nodes| + 1 }

  function SubCount(instances: seq<Inst>): nat {
    if instances == [] then 0 else InstTotal(instances[0]) + SubCount(instances[1..])
  }

  function HostTotal(h: Host): nat { 1 + SubCount(h.instances) }

  function TotalCount(hosts: seq<Host>): nat {
    if hosts == [] then 0 else HostTotal(hosts[0]) + TotalCount(hosts[1..])
  }

  // The rows, in display order --------------------------------------------------------------

  function NodeItems(h: nat, i: nat, nodes: seq<nat>): seq<Item> {
    seq(|nodes|, k requires 0 <= k < |nodes| => NodeItem(h, i, nodes[k]))
  }

  function InstRows(h: nat, i: Inst): seq<Item> { [InstItem(h, i.id)] + NodeItems(h, i.id, i.nodes) }

  function InstsRows(h: nat, instances: seq<Inst>): seq<Item> {
    if instances == [] then [] else InstRows(h, instances[0]) + InstsRows(h, instances[1..])
  }

  function HostRows(h: Host): seq<Item> { [HostItem(h.id)] + InstsRows(h.id, h.instances) }

  function Rows(hosts: seq<Host>): seq<Item> {
    if hosts == [] then [] else HostRows(hosts[0]) + Rows(hosts[1..])
  }

  lemma {:induction false} InstsRowsLength(h: nat, instances: seq<Inst>)
    ensures |InstsRows(h, instances)| == SubCount(instances)
    decreases |instances|
  {
    if instances != [] { InstsRowsLength(h, instances[1..]); }
  }

  /** There are as many rows as the counts say. */
  lemma {:induction false} RowsLength(hosts: seq<Host>)
    ensures |Rows(hosts)| == TotalCount(hosts)
    decreases |hosts|
  {
    if hosts != [] {
      InstsRowsLength(hosts[0].id, hosts[0].instances);
      RowsLength(hosts[1..]);
    }
  }

  // Keys are unique on every level ------------------------------------------------------------

  predicate Distinct(ids: seq<nat>) { forall i, j :: 0 <= i < j < |ids| ==> ids[i] != ids[j] }

  predicate DistinctInsts(instances: seq<Inst>) {
    && (forall i, j :: 0 <= i < j < |instances| ==> instances[i].id != instances[j].id)
    && (forall i :: 0 <= i < |instances| ==> Distinct(instances[i].nodes))
  }

  predicate UniqueKeys(hosts: seq<Host>) {
    && (forall i, j :: 0 <= i < j < |hosts| ==> hosts[i].id != hosts[j].id)
    && (forall i :: 0 <= i < |hosts| ==> DistinctInsts(hosts[i].instances))
  }

  predicate NoDuplicates(items: seq<Item>) { forall i, j :: 0 <= i < j < |items| ==> items[i] != items[j] }

  lemma {:induction false} InstsRowsItems(h: nat, instances: seq<Inst>, k: nat)
    requires k < |InstsRows(h, instances)|
    ensures var item := InstsRows(h, instances)[k];
            && !item.HostItem? && item.host == h
            && exists i :: 0 <= i < |instances| && instances[i].id == item.inst
    decreases |instances|
  {
    if k >= |InstRows(h, instances[0])| {
      InstsRowsItems(h, instances[1..], k - |InstRows(h, instances[0])|);
      var item := InstsRows(h, instances)[k];
      var i :| 0 <= i < |instances[1..]| && instances[1..][i].id == item.inst;
      assert instances[i + 1].id == item.inst;
    } else {
      assert instances[0].id == InstsRows(h, instances)[k].inst;
    }
  }

  lemma ConcatDistinct(xs: seq<Item>, ys: seq<Item>)
    requires NoDuplicates(xs) && NoDuplicates(ys)
    requires forall i, j :: 0 <= i < |xs| && 0 <= j < |ys| ==> xs[i] != ys[j]
    ensures NoDuplicates(xs + ys)
  {
  }

  lemma {:induction false} InstsRowsDistinct(h: nat, instances: seq<Inst>)
    requires DistinctInsts(instances)
    ensures NoDuplicates(InstsRows(h, instances))
    decreases |instances|
  {
    if instances != [] {
      InstsRowsDistinct(h, instances[1..]);
      var rest := InstsRows(h, instances[1..]);
      forall j | 0 <= j < |rest| ensures !rest[j].HostItem? && rest[j].inst != instances[0].id {
        InstsRowsItems(h, instances[1..], j);
      }
      ConcatDistinct(InstRows(h, instances[0]), rest);
    }
  }

  lemma {:induction false} RowsItems(hosts: seq<Host>, k: nat)
    requires k < |Rows(hosts)|
    ensures exists i :: 0 <= i < |hosts| && hosts[i].id == Rows(hosts)[k].host
    decreases |hosts|
  {
    if k >= |HostRows(hosts[0])| {
      RowsItems(hosts[1..], k - |HostRows(hosts[0])|);
      var i :| 0 <= i < |hosts[1..]| && hosts[1..][i].id == Rows(hosts)[k].host;
      assert hosts[i + 1].id == Rows(hosts)[k].host;
    } else {
      if k > 0 { InstsRowsItems(hosts[0].id, hosts[0].instances, k - 1); }
      assert hosts[0].id == Rows(hosts)[k].host;
    }
  }

  /** With unique keys no item appears in two rows. */
  lemma {:induction false} RowsDistinct(hosts: seq<Host>)
    requires UniqueKeys(hosts)
    ensures NoDuplicates(Rows(hosts))
    decreases |hosts|
  {
    if hosts != [] {
      var h, rest := hosts[0], Rows(hosts[1..]);
      RowsDistinct(hosts[1..]);
      InstsRowsDistinct(h.id, h.instances);
      var insts := InstsRows(h.id, h.instances);
      forall j | 0 <= j < |insts| ensures insts[j].host == h.id && !insts[j].HostItem? {
        InstsRowsItems(h.id, h.instances, j);
      }
      ConcatDistinct([HostItem(h.id)], insts);
      forall j | 0 <= j < |rest| ensures rest[j].host != h.id { RowsItems(hosts[1..], j); }
      ConcatDistinct(HostRows(h), rest);
    }
  }

  // Concatenation -----------------------------------------------------------------------------

  lemma {:induction false} RowsSplit(hosts: seq<Host>, k: nat)
    requires k < |hosts|
    ensures Rows(hosts) == Rows(hosts[..k]) + (HostRows(hosts[k]) + Rows(hosts[k + 1..]))
    ensures |Rows(hosts[..k + 1])| == |Rows(hosts[..k])| + |HostRows(hosts[k])|
    decreases |hosts|
  {
    if k == 0 {
      assert hosts[..1][1..] == [] && hosts[..0] == [];
    } else {
      RowsSplit(hosts[1..], k - 1);
      assert hosts[1..][..k - 1] == hosts[..k][1..] && hosts[1..][..k] == hosts[..k + 1][1..];
      assert hosts[1..][k..] == hosts[k + 1..];
      Assoc(HostRows(hosts[0]), Rows(hosts[1..][..k - 1]), HostRows(hosts[k]) + Rows(hosts[k + 1..]));
    }
  }

  lemma {:induction false} InstsSplit(h: nat, instances: seq<Inst>, k: nat)
    requires k < |instances|
    ensures InstsRows(h, instances) ==
            InstsRows(h, instances[..k]) + (InstRows(h, instances[k]) + InstsRows(h, instances[k + 1..]))
    ensures |InstsRows(h, instances[..k + 1])| == |InstsRows(h, instances[..k])| + |InstRows(h, instances[k])|
    decreases |instances|
  {
    if k == 0 {
      assert instances[..1][1..] == [] && instances[..0] == [];
    } else {
      InstsSplit(h, instances[1..], k - 1);
      assert instances[1..][..k - 1] == instances[..k][1..] && instances[1..][..k] == instances[..k + 1][1..];
      assert instances[1..][k..] == instances[k + 1..];
      Assoc(InstRows(h, instances[0]), InstsRows(h, instances[1..][..k - 1]),
                InstRows(h, instances[k]) + InstsRows(h, instances[k + 1..]));
    }
  }

  /** Rows before host k, and before instance m within its host. */
  function HostRow(hosts: seq<Host>, k: nat): nat
    requires k <= |hosts|
  {
    |Rows(hosts[..k])|
  }

  function InstOffset(h: nat, instances: seq<Inst>, m: nat): nat
    requires m <= |instances|
  {
    |InstsRows(h, instances[..m])|
  }

  lemma NoRowsBefore(hosts: seq<Host>)
    ensures HostRow(hosts, 0) == 0 && HostRow(hosts, |hosts|) == TotalCount(hosts)
  {
    RowsLength(hosts);
    assert hosts[..|hosts|] == hosts;
  }

  lemma NoInstsBefore(h: nat, instances: seq<Inst>)
    ensures InstOffset(h, instances, 0) == 0 && InstOffset(h, instances, |instances|) == SubCount(instances)
  {
    InstsRowsLength(h, instances);
    assert instances[..|instances|] == instances;
  }

  lemma HostRowStep(hosts: seq<Host>, k: nat)
    requires k < |hosts|
    ensures HostRow(hosts, k + 1) == HostRow(hosts, k) + HostTotal(hosts[k])
  {
    RowsSplit(hosts, k);
    InstsRowsLength(hosts[k].id, hosts[k].instances);
  }

  lemma InstOffsetStep(h: nat, instances: seq<Inst>, m: nat)
    requires m < |instances|
    ensures InstOffset(h, instances, m + 1) == InstOffset(h, instances, m) + InstTotal(instances[m])
  {
    InstsSplit(h, instances, m);
  }

  function InstRow(hosts: seq<Host>, k: nat, m: nat): nat
    requires k < |hosts| && m < |hosts[k].instances|
  {
    HostRow(hosts, k) + 1 + InstOffset(hosts[k].id, hosts[k].instances, m)
  }

  /** What the row of a host shows. */
  lemma ShownHost(hosts: seq<Host>, k: nat, row: nat)
    requires k < |hosts| && row == HostRow(hosts, k)
    ensures row < |Rows(hosts)| && Rows(hosts)[row] == HostItem(hosts[k].id)
  {
    RowsSplit(hosts, k);
  }

  lemma InstRowsHold(hosts: seq<Host>, k: nat, m: nat, n: nat)
    requires k < |hosts| && m < |hosts[k].instances| && n < InstTotal(hosts[k].instances[m])
    ensures InstRow(hosts, k, m) + n < |Rows(hosts)|
    ensures Rows(hosts)[InstRow(hosts, k, m) + n] == InstRows(hosts[k].id, hosts[k].instances[m])[n]
  {
    RowsSplit(hosts, k);
    InstsSplit(hosts[k].id, hosts[k].instances, m);
    var h, i := hosts[k].id, hosts[k].instances[m];
    var before := InstsRows(h, hosts[k].instances[..m]);
    var after := InstsRows(h, hosts[k].instances[m + 1..]);
    HostRowsAt(Rows(hosts), Rows(hosts[..k]), HostItem(h), before, InstRows(h, i), after, Rows(hosts[k + 1..]), n);
  }

  /** What the rows of an instance and of its nodes show. */
  lemma ShownInst(hosts: seq<Host>, k: nat, m: nat, row: nat)
    requires k < |hosts| && m < |hosts[k].instances|
    requires row == HostRow(hosts, k) + 1 + InstOffset(hosts[k].id, hosts[k].instances, m)
    ensures row < |Rows(hosts)| && Rows(hosts)[row] == InstItem(hosts[k].id, hosts[k].instances[m].id)
  {
    InstRowsHold(hosts, k, m, 0);
  }

  lemma ShownNode(hosts: seq<Host>, k: nat, m: nat, n: nat, row: nat)
    requires k < |hosts| && m < |hosts[k].instances| && n < |hosts[k].instances[m].nodes|
    requires row == HostRow(hosts, k) + 2 + InstOffset(hosts[k].id, hosts[k].instances, m) + n
    ensures row < |Rows(hosts)|
    ensures Rows(hosts)[row] == NodeItem(hosts[k].id, hosts[k].instances[m].id, hosts[k].instances[m].nodes[n])
  {
    InstRowsHold(hosts, k, m, 1 + n);
  }

  lemma HostRowsAt(all: seq<Item>, a: seq<Item>, x: Item, b: seq<Item>, c: seq<Item>, d: seq<Item>, e: seq<Item>,
                   n: nat)
    requires all == a + (([x] + (b + (c + d))) + e) && n < |c|
    ensures |a| + 1 + |b| + n < |all| && all[|a| + 1 + |b| + n] == c[n]
  {
  }

  // Rows show exactly the tree ------------------------------------------------------------------

  predicate InInst(i: Inst, item: Item) {
    || (item.InstItem? && item.inst == i.id)
    || (item.NodeItem? && item.inst == i.id && item.node in i.nodes)
  }

  predicate InHost(h: Host, item: Item) {
    item.host == h.id && (item.HostItem? || exists m :: 0 <= m < |h.instances| && InInst(h.instances[m], item))
  }

  predicate InTree(hosts: seq<Host>, item: Item) { exists k :: 0 <= k < |hosts| && InHost(hosts[k], item) }

  lemma {:induction false} InstsRowsInTree(h: nat, instances: seq<Inst>, r: nat)
    requires r < |InstsRows(h, instances)|
    ensures exists m :: 0 <= m < |instances| && InInst(instances[m], InstsRows(h, instances)[r])
    decreases |instances|
  {
    var item := InstsRows(h, instances)[r];
    if r >= |InstRows(h, instances[0])| {
      InstsRowsInTree(h, instances[1..], r - |InstRows(h, instances[0])|);
      var m :| 0 <= m < |instances[1..]| && InInst(instances[1..][m], item);
      assert InInst(instances[m + 1], item);
    } else {
      assert InInst(instances[0], item);
    }
  }

  lemma {:induction false} RowInTree(hosts: seq<Host>, r: nat)
    requires r < |Rows(hosts)|
    ensures InTree(hosts, Rows(hosts)[r])
    decreases |hosts|
  {
    var item := Rows(hosts)[r];
    if r >= |HostRows(hosts[0])| {
      RowInTree(hosts[1..], r - |HostRows(hosts[0])|);
      var k :| 0 <= k < |hosts[1..]| && InHost(hosts[1..][k], item);
      assert InHost(hosts[k + 1], item);
    } else {
      if r > 0 {
        InstsRowsInTree(hosts[0].id, hosts[0].instances, r - 1);
        InstsRowsItems(hosts[0].id, hosts[0].instances, r - 1);
      }
      assert InHost(hosts[0], item);
    }
  }

  /** An item is shown in some row exactly when it is in the tree. */
  lemma ShownIffInTree(hosts: seq<Host>, item: Item)
    ensures item in Rows(hosts) <==> InTree(hosts, item)
  {
    if item in Rows(hosts) {
      var r :| 0 <= r < |Rows(hosts)| && Rows(hosts)[r] == item;
      RowInTree(hosts, r);
    }
    if InTree(hosts, item) {
      var k :| 0 <= k < |hosts| && InHost(hosts[k], item);
      ShownHost(hosts, k, HostRow(hosts, k));
      if !item.HostItem? {
        var m :| 0 <= m < |hosts[k].instances| && InInst(hosts[k].instances[m], item);
        ShownInst(hosts, k, m, InstRow(hosts, k, m));
        if item.NodeItem? {
          var n :| 0 <= n < |hosts[k].instances[m].nodes| && hosts[k].instances[m].nodes[n] == item.node;
          ShownNode(hosts, k, m, n, InstRow(hosts, k, m) + 1 + n);
        }
      }
    }
  }

  // The view model ----------------------------------------------------------------------------

  /** Selected host, instance and node ids; 0 for none. */
  datatype Selection = Selection(host: nat, inst: nat, node: nat)

  function SelectionOf(item: Item): Selection {
    match item
    case HostItem(h) => Selection(h, 0, 0)
    case InstItem(h, i) => Selection(h, i, 0)
    case NodeItem(h, i, n) => Selection(h, i, n)
  }

  /** A model index carries kind and own id of an item; or the source's assertion on node positions fails. */
  datatype IndexResult = NoIndex | ModelIndex(kind: Kind, id: nat) | AssertionFails

  function IndexOf(item: Item): IndexResult {
    match item
    case HostItem(h) => ModelIndex(HostKind, h)
    case InstItem(_, i) => ModelIndex(InstKind, i)
    case NodeItem(_, _, n) => ModelIndex(NodeKind, n)
  }

  predicate HasInstances(hosts: seq<Host>) { exists k :: 0 <= k < |hosts| && hosts[k].instances != [] }

  /** The row shows the item, or is -1 and no row does. */
  ghost predicate IsRowOf(hosts: seq<Host>, row: int, item: Item) {
    if row == -1 then item !in Rows(hosts) else 0 <= row < |Rows(hosts)| && Rows(hosts)[row] == item
  }

  class NodeListViewModel {
    var hosts: seq<Host>
    var selected: Selection
    var selectedRow: int

    /** The maps have unique keys. */
    predicate Valid() reads this { UniqueKeys(hosts) }

    constructor (tree: seq<Host>)
      requires UniqueKeys(tree)
      ensures Valid() && hosts == tree && selected == Selection(0, 0, 0)
    {
      hosts, selected := tree, Selection(0, 0, 0);
    }

    method RowOfHost(hostId: nat) returns (row: int)
      requires Valid()
      ensures IsRowOf(hosts, row, HostItem(hostId))
    {
      row := 0;
      NoRowsBefore(hosts);
      for k := 0 to |hosts|
        invariant row == HostRow(hosts, k)
        invariant forall j :: 0 <= j < k ==> hosts[j].id != hostId
      {
        HostRowStep(hosts, k);
        if hosts[k].id == hostId {
          ShownHost(hosts, k, row);
          return row;
        }
        row := row + HostTotal(hosts[k]);
      }
      ShownIffInTree(hosts, HostItem(hostId));
      row := -1;
    }

    method RowOfInst(hostId: nat, instId: nat) returns (row: int)
      requires Valid()
      ensures IsRowOf(hosts, row, InstItem(hostId, instId))
    {
      ghost var item := InstItem(hostId, instId);
      row := 1;
      NoRowsBefore(hosts);
      for k := 0 to |hosts|
        invariant row >= 1
        invariant (forall j :: 0 <= j < k ==> hosts[j].id != hostId) ==> row == 1 + HostRow(hosts, k)
        invariant forall j :: 0 <= j < k ==> !InHost(hosts[j], item)
      {
        var instances := hosts[k].instances;
        if hosts[k].id == hostId {
          NoInstsBefore(hosts[k].id, instances);
          for m := 0 to |instances|
            invariant row == 1 + HostRow(hosts, k) + InstOffset(hosts[k].id, instances, m)
            invariant forall j :: 0 <= j < m ==> instances[j].id != instId
          {
            InstOffsetStep(hosts[k].id, instances, m);
            if instances[m].id == instId {
              ShownInst(hosts, k, m, row);
              return row;
            }
            row := row + InstTotal(instances[m]);
          }
        }
        HostRowStep(hosts, k);
        row := row + HostTotal(hosts[k]);
      }
      ShownIffInTree(hosts, item);
      row := -1;
    }

    method RowOfNode(hostId: nat, instId: nat, nodeId: nat) returns (row: int)
      requires Valid()
      ensures IsRowOf(hosts, row, NodeItem(hostId, instId, nodeId))
    {
      ghost var item := NodeItem(hostId, instId, nodeId);
      row := 2;
      NoRowsBefore(hosts);
      for k := 0 to |hosts|
        invariant row >= 2
        invariant (forall j :: 0 <= j < k ==> hosts[j].id != hostId) ==> row == 2 + HostRow(hosts, k)
        invariant forall j :: 0 <= j < k ==> !InHost(hosts[j], item)
      {
        var instances := hosts[k].instances;
        if hosts[k].id == hostId {
          NoInstsBefore(hosts[k].id, instances);
          for m := 0 to |instances|
            invariant row >= 2
            invariant (forall j :: 0 <= j < m ==> instances[j].id != instId) ==>
                        row == 2 + HostRow(hosts, k) + InstOffset(hosts[k].id, instances, m)
            invariant forall j :: 0 <= j < m ==> !InInst(instances[j], item)
          {
            InstOffsetStep(hosts[k].id, instances, m);
            if instances[m].id == instId {
              var nodes := instances[m].nodes;
              for n := 0 to |nodes|
                invariant row == HostRow(hosts, k) + 2 + InstOffset(hosts[k].id, instances, m) + n
                invariant forall j :: 0 <= j < n ==> nodes[j] != nodeId
              {
                if nodes[n] == nodeId {
                  ShownNode(hosts, k, m, n, row);
                  return row;
                }
                row := row + 1;
              }
            }
            row := row + InstTotal(instances[m]);
          }
        }
        HostRowStep(hosts, k);
        row := row + HostTotal(hosts[k]);
      }
      ShownIffInTree(hosts, item);
      row := -1;
    }

    /** Selects the item shown in a row; any other row number clears the selection. */
    method OnItemSelected(row: int)
      requires Valid()
      modifies this`selected, this`selectedRow
      ensures selectedRow == row
      ensures selected == if 0 <= row < |Rows(hosts)| then SelectionOf(Rows(hosts)[row]) else Selection(0, 0, 0)
      ensures forall h :: 0 <= row && IsRowOf(hosts, row, HostItem(h)) ==> selected == Selection(h, 0, 0)
      ensures forall h, i :: 0 <= row && IsRowOf(hosts, row, InstItem(h, i)) ==> selected == Selection(h, i, 0)
      ensures forall h, i, n :: 0 <= row && IsRowOf(hosts, row, NodeItem(h, i, n)) ==> selected == Selection(h, i, n)
    {
      selectedRow := row;
      RowsLength(hosts);
      if row < 0 || row >= TotalCount(hosts) {
        selected := Selection(0, 0, 0);
        return;
      }
      var skip := row;
      NoRowsBefore(hosts);
      for k := 0 to |hosts|
        invariant skip == row - HostRow(hosts, k) && skip >= 0 && selectedRow == row
      {
        HostRowStep(hosts, k);
        if skip == 0 {
          ShownHost(hosts, k, row);
          selected := Selection(hosts[k].id, 0, 0);
          return;
        }
        skip := skip - 1;
        var subtotal := SubCount(hosts[k].instances);
        if skip < subtotal {
          var instances := hosts[k].instances;
          NoInstsBefore(hosts[k].id, instances);
          for m := 0 to |instances|
            invariant skip == row - HostRow(hosts, k) - 1 - InstOffset(hosts[k].id, instances, m) && skip >= 0
            invariant selectedRow == row
          {
            InstOffsetStep(hosts[k].id, instances, m);
            if skip == 0 {
              ShownInst(hosts, k, m, row);
              selected := Selection(hosts[k].id, instances[m].id, 0);
              return;
            }
            skip := skip - 1;
            subtotal := |instances[m].nodes|;
            if skip < subtotal {
              ShownNode(hosts, k, m, skip, row);
              selected := Selection(hosts[k].id, instances[m].id, instances[m].nodes[skip]);
              return;
            }
            skip := skip - subtotal;
          }
          assert false;
        }
        skip := skip - subtotal;
      }
      assert false;
    }

    /**
     The model index of a row: kind and id of the item shown, none past the last row. For a
     negative row the position of a node is looked up out of range as soon as there is one
     instance.
     */
    method Index(row: int) returns (index: IndexResult)
      requires Valid()
      ensures 0 <= row ==> index == if row < |Rows(hosts)| then IndexOf(Rows(hosts)[row]) else NoIndex
      ensures row < 0 ==> index == if HasInstances(hosts) then AssertionFails else NoIndex
      ensures forall h :: 0 <= row && IsRowOf(hosts, row, HostItem(h)) ==> index == ModelIndex(HostKind, h)
      ensures forall h, i :: 0 <= row && IsRowOf(hosts, row, InstItem(h, i)) ==> index == ModelIndex(InstKind, i)
      ensures forall h, i, n :: 0 <= row && IsRowOf(hosts, row, NodeItem(h, i, n)) ==> index == ModelIndex(NodeKind, n)
    {
      var skip := row;
      RowsLength(hosts);
      NoRowsBefore(hosts);
      for k := 0 to |hosts|
        invariant row >= 0 ==> skip == row - HostRow(hosts, k) && skip >= 0
        invariant row < 0 ==> skip < 0 && forall j :: 0 <= j < k ==> hosts[j].instances == []
      {
        HostRowStep(hosts, k);
        if skip == 0 {
          ShownHost(hosts, k, row);
          return ModelIndex(HostKind, hosts[k].id);
        }
        skip := skip - 1;
        var subtotal: int := SubCount(hosts[k].instances);
        if skip < subtotal {
          var instances := hosts[k].instances;
          NoInstsBefore(hosts[k].id, instances);
          for m := 0 to |instances|
            invariant row >= 0 ==>
                        skip == row - HostRow(hosts, k) - 1 - InstOffset(hosts[k].id, instances, m) && skip >= 0
            invariant row < 0 ==> skip < 0 && m == 0 && subtotal == SubCount(instances)
          {
            InstOffsetStep(hosts[k].id, instances, m);
            if skip == 0 {
              ShownInst(hosts, k, m, row);
              return ModelIndex(InstKind, instances[m].id);
            }
            skip := skip - 1;
            subtotal := |instances[m].nodes|;
            if skip < subtotal {
              if skip < 0 {
                return AssertionFails;
              }
              ShownNode(hosts, k, m, skip, row);
              return ModelIndex(NodeKind, instances[m].nodes[skip]);
            }
            skip := skip - subtotal;
          }
        }
        skip := skip - subtotal;
      }
      return NoIndex;
    }

    method FindSelectedRow() returns (row: int)
      requires Valid()
      ensures IsRowOf(hosts, row, SelectedItem(selected))
      ensures selected.node != 0 ==> IsRowOf(hosts, row, NodeItem(selected.host, selected.inst, selected.node))
      ensures selected.node == 0 && selected.inst != 0 ==> IsRowOf(hosts, row, InstItem(selected.host, selected.inst))
      ensures selected.node == 0 && selected.inst == 0 ==> IsRowOf(hosts, row, HostItem(selected.host))
    {
      if selected.node != 0 {
        row := RowOfNode(selected.host, selected.inst, selected.node);
      } else if selected.inst != 0 {
        row := RowOfInst(selected.host, selected.inst);
      } else {
        row := RowOfHost(selected.host);
      }
    }
  }

  /** The item a selection is taken for when its row is looked up. */
  function SelectedItem(s: Selection): Item {
    if s.node != 0 then NodeItem(s.host, s.inst, s.node)
    else if s.inst != 0 then InstItem(s.host, s.inst)
    else HostItem(s.host)
  }

  // Main results --------------------------------------------------------------------------------

  /**
   Row numbers and items are in bijection: every item of the tree has exactly one row, every
   row from 0 to the total count shows exactly one item of the tree.
   */
  lemma RowsAreABijection(hosts: seq<Host>, item: Item, row: int, other: int)
    requires UniqueKeys(hosts)
    ensures 0 <= row < TotalCount(hosts) ==> row < |Rows(hosts)| && InTree(hosts, Rows(hosts)[row])
    ensures InTree(hosts, item) <==>
            exists r :: 0 <= r < TotalCount(hosts) && r < |Rows(hosts)| && Rows(hosts)[r] == item
    ensures IsRowOf(hosts, row, item) && IsRowOf(hosts, other, item) ==> row == other
  {
    RowsLength(hosts);
    RowsDistinct(hosts);
    ShownIffInTree(hosts, item);
    if 0 <= row < TotalCount(hosts) { RowInTree(hosts, row); }
  }

  /**
   Selecting a row and looking up the row of the selection comes back to the same row exactly
   when the item shown is a host or its own id is not 0, the number that stands for "none".
   */
  lemma SelectedRowComesBackIff(hosts: seq<Host>, row: nat, found: int)
    requires UniqueKeys(hosts) && row < |Rows(hosts)|
    requires IsRowOf(hosts, found, SelectedItem(SelectionOf(Rows(hosts)[row])))
    ensures var item := Rows(hosts)[row];
            found == row <==> item.HostItem? || (item.InstItem? && item.inst != 0) || (item.NodeItem? && item.node != 0)
  {
    RowsDistinct(hosts);
  }
}
