/** The lists of scan results on the heap. */
module ScanLists {
  import opened Options
  import opened ScanHistory

  class Node {
    const bda: Address
    const usage: Usage
    var name: Option<string>
    var rssi: int
    var detail: Detail
    var next: Node?

    constructor (d: Discovery)
      ensures bda == d.bda && usage == d.usage && name == None && rssi == d.rssi && detail == d.detail && next == null
    {
      bda, usage, name, rssi, detail, next := d.bda, d.usage, None, d.rssi, d.detail, null;
    }

    function Value(): Entry
      reads this`name, this`rssi, this`detail
    {
      Entry(bda, usage, name, rssi, detail)
    }

    /** The memory goes back to the allocator: nothing can be said about it any more. */
    method Free()
      modifies this
    {
      name, rssi, next := None, 0, null;
    }
  }

  /** From the head one comes through these nodes, none twice, to the end; they hold these entries. */
  ghost predicate Chain(head: Node?, nodes: seq<Node>, es: seq<Entry>, end: Node?)
    reads nodes
  {
    if nodes == [] then head == end && es == []
    else
      && head == nodes[0] && head !in nodes[1..]
      && es != [] && nodes[0].Value() == es[0] && Chain(nodes[0].next, nodes[1..], es[1..], end)
  }

  ghost function At(nodes: seq<Node>, i: nat, end: Node?): Node? {
    if i < |nodes| then nodes[i] else end
  }

  /** The same, node by node. */
  ghost predicate Linked(head: Node?, nodes: seq<Node>, es: seq<Entry>, end: Node?)
    reads nodes
  {
    && |es| == |nodes| && head == At(nodes, 0, end)
    && (forall i, j :: 0 <= i < j < |nodes| ==> nodes[i] != nodes[j])
    && forall i :: 0 <= i < |nodes| ==> nodes[i].next == At(nodes, i + 1, end) && nodes[i].Value() == es[i]
  }

  lemma {:induction false} LinkedChain(head: Node?, nodes: seq<Node>, es: seq<Entry>, end: Node?)
    requires Linked(head, nodes, es, end)
    ensures Chain(head, nodes, es, end)
    decreases |nodes|
  {
    if nodes != [] {
      var rest, later := nodes[1..], es[1..];
      forall i | 0 <= i < |rest|
        ensures rest[i].next == At(rest, i + 1, end) && rest[i].Value() == later[i] && rest[i] != nodes[0]
      {
        assert rest[i] == nodes[i + 1];
      }
      LinkedChain(nodes[0].next, rest, later, end);
    }
  }

  lemma {:induction false} ChainLinked(head: Node?, nodes: seq<Node>, es: seq<Entry>, end: Node?)
    requires Chain(head, nodes, es, end)
    ensures Linked(head, nodes, es, end)
    decreases |nodes|
  {
    if nodes != [] {
      var rest, later := nodes[1..], es[1..];
      ChainLinked(nodes[0].next, rest, later, end);
      forall i | 0 <= i < |nodes| ensures nodes[i].next == At(nodes, i + 1, end) && nodes[i].Value() == es[i] {
        if i > 0 { assert nodes[i] == rest[i - 1] && es[i] == later[i - 1]; }
      }
      forall i, j | 0 <= i < j < |nodes| ensures nodes[i] != nodes[j] {
        assert nodes[j] == rest[j - 1];
      }
    }
  }

  /** The first node with an address, null if there is none. */
  method FindScanResult(bda: Address, results: Node?, ghost nodes: seq<Node>, ghost es: seq<Entry>) returns (r: Node?)
    requires Chain(results, nodes, es, null)
    ensures |es| == |nodes| && r == At(nodes, Find(es, bda), null)
  {
    ChainLinked(results, nodes, es, null);
    r := results;
    ghost var i := 0;
    while r != null
      invariant i <= |nodes| && r == At(nodes, i, null)
      invariant forall k :: 0 <= k < i ==> nodes[k].bda != bda
      decreases |nodes| - i
    {
      assert r.Value() == es[i];
      if r.bda == bda { return; }
      r := r.next;
      i := i + 1;
    }
  }

  /** Frees a chain node by node; each is read before it is freed, and freed once. */
  method ScanResultsFree(head: Node?, ghost nodes: seq<Node>, ghost es: seq<Entry>) returns (freed: seq<Node>)
    requires Chain(head, nodes, es, null)
    modifies nodes
    ensures freed == nodes
  {
    var results := head;
    freed := [];
    ghost var left := es;
    while results != null
      invariant |freed| <= |nodes| && freed == nodes[..|freed|] && Chain(results, nodes[|freed|..], left, null)
      decreases |nodes| - |freed|
    {
      var r := results;
      results := results.next;
      r.Free();
      freed := freed + [r];
      left := left[1..];
    }
  }

  /** A list of one radio, as long as counted. */
  ghost predicate Sound(head: Node?, num: nat, nodes: seq<Node>, es: seq<Entry>, classic: bool)
    reads nodes
  {
    Chain(head, nodes, es, null) && num == |es| == |nodes| && Listed(es, classic)
  }

  /** Fills a known device in, unless memory for its name is missing. */
  method MergeInto(r: Node, report: Report)
    requires r.detail.Bt? && report.found.detail.Bt?
    modifies r
    ensures r.next == old(r.next)
    ensures r.Value() ==
      if old(r.name) == None && report.found.name != "" && !report.nameMemory then old(r.Value())
      else Merge(old(r.Value()), report.found)
  {
    var d := report.found;
    if r.name == None && d.name != "" {
      if !report.nameMemory { return; }
      r.name := Some(d.name);
    }
    if r.detail.uuid.len == 0 && d.detail.uuid.len != 0 {
      r.detail := r.detail.(uuid := d.detail.uuid);
    }
    if d.rssi != 0 {
      r.rssi := d.rssi;
    }
  }

  /** A device of the chain is heard of again. */
  method Rediscover(r: Node, report: Report, ghost head: Node?, ghost nodes: seq<Node>, ghost es: seq<Entry>)
    requires Chain(head, nodes, es, null) && Listed(es, true) && report.found.detail.Bt?
    requires Find(es, report.found.bda) < |es| == |nodes| && r == nodes[Find(es, report.found.bda)]
    modifies r
    ensures Chain(head, nodes, Take(es, report), null)
  {
    ChainLinked(head, nodes, es, null);
    MergeInto(r, report);
    LinkedChain(head, nodes, Take(es, report), null);
  }

  /** A node for a new device in front of a list, null if memory is missing. */
  method NewNode(report: Report, head: Node?) returns (r: Node?)
    ensures r == null <==> !report.memory || (report.found.name != "" && !report.nameMemory)
    ensures r != null ==> fresh(r) && r.Value() == Fresh(report.found) && r.next == head
  {
    if !report.memory { return null; }
    var d := report.found;
    r := new Node(d);
    if d.name != "" {
      if !report.nameMemory {
        r.Free();
        return null;
      }
      r.name := Some(d.name);
    }
    r.next := head;
  }

  /** A device not heard of before goes in front of its list, if memory can be had. */
  method AddDevice(report: Report, results: Node?, num: nat, ghost nodes: seq<Node>, ghost es: seq<Entry>)
    returns (head: Node?, count: nat, ghost now: seq<Node>, ghost list: seq<Entry>)
    requires Sound(results, num, nodes, es, report.found.detail.Bt?) && Find(es, report.found.bda) == |es|
    ensures Sound(head, count, now, list, report.found.detail.Bt?) && list == Take(es, report)
    ensures now == nodes || (now != [] && fresh(now[0]) && now[1..] == nodes)
  {
    head, count, now, list := results, num, nodes, Take(es, report);
    TakeListed(es, report, report.found.detail.Bt?);
    var r := NewNode(report, results);
    if r != null {
      head, count, now := r, num + 1, [r] + nodes;
    }
  }

  /** A report about a classic device: a known one is filled in, a new one added. */
  method AddClassic(report: Report, results: Node?, num: nat, ghost nodes: seq<Node>, ghost es: seq<Entry>)
    returns (head: Node?, count: nat, ghost now: seq<Node>, ghost list: seq<Entry>)
    requires Sound(results, num, nodes, es, true) && report.found.detail.Bt?
    modifies nodes
    ensures Sound(head, count, now, list, true) && list == Take(es, report)
    ensures now == nodes || (now != [] && fresh(now[0]) && now[1..] == nodes)
  {
    var r := FindScanResult(report.found.bda, results, nodes, es);
    if r != null {
      TakeListed(es, report, true);
      Rediscover(r, report, results, nodes, es);
      head, count, now, list := results, num, nodes, Take(es, report);
    } else {
      head, count, now, list := AddDevice(report, results, num, nodes, es);
    }
  }

  /** A report about a low-energy device: a known one stays as it was. */
  method AddLowEnergy(report: Report, results: Node?, num: nat, ghost nodes: seq<Node>, ghost es: seq<Entry>)
    returns (head: Node?, count: nat, ghost now: seq<Node>, ghost list: seq<Entry>)
    requires Sound(results, num, nodes, es, false) && report.found.detail.Ble?
    ensures Sound(head, count, now, list, false) && list == Take(es, report)
    ensures now == nodes || (now != [] && fresh(now[0]) && now[1..] == nodes)
  {
    var r := FindScanResult(report.found.bda, results, nodes, es);
    if r != null {
      head, count, now, list := results, num, nodes, es;
    } else {
      head, count, now, list := AddDevice(report, results, num, nodes, es);
    }
  }

  class Scanner {
    var bt: Node?
    var numBt: nat
    var ble: Node?
    var numBle: nat
    // The nodes of both lists, and what they hold.
    ghost var btNodes: seq<Node>
    ghost var btList: seq<Entry>
    ghost var bleNodes: seq<Node>
    ghost var bleList: seq<Entry>

    /** Both lists end, share no node, name no device twice, keep to their radio, and are as long as counted. */
    ghost predicate Valid()
      reads this, btNodes, bleNodes
    {
      && Sound(bt, numBt, btNodes, btList, true) && Sound(ble, numBle, bleNodes, bleList, false)
      && forall i, j | 0 <= i < |btNodes| && 0 <= j < |bleNodes| :: btNodes[i] != bleNodes[j]
    }

    constructor ()
      ensures Valid() && btList == bleList == []
    {
      bt, ble, numBt, numBle, btNodes, bleNodes, btList, bleList := null, null, 0, 0, [], [], [], [];
    }

    // The variables of the classic list.
    method SetBt(head: Node?, num: nat, ghost nodes: seq<Node>, ghost list: seq<Entry>)
      requires Sound(head, num, nodes, list, true) && Sound(ble, numBle, bleNodes, bleList, false)
      requires forall i, j | 0 <= i < |nodes| && 0 <= j < |bleNodes| :: nodes[i] != bleNodes[j]
      modifies `bt, `numBt, `btNodes, `btList
      ensures Valid() && btNodes == nodes && btList == list
    {
      bt, numBt, btNodes, btList := head, num, nodes, list;
    }

    method AddBtScanResult(report: Report)
      requires Valid() && report.found.detail.Bt?
      modifies this, btNodes
      ensures Valid() && btList == Take(old(btList), report)
      ensures bleNodes == old(bleNodes) && bleList == old(bleList)
      ensures forall i | 0 <= i < |btNodes| :: btNodes[i] in old(btNodes) || fresh(btNodes[i])
    {
      var head, num;
      ghost var nodes, list;
      head, num, nodes, list := AddClassic(report, bt, numBt, btNodes, btList);
      SetBt(head, num, nodes, list);
    }

    method AddBleScanResult(report: Report)
      requires Valid() && report.found.detail.Ble?
      modifies this
      ensures Valid() && bleList == Take(old(bleList), report)
      ensures btNodes == old(btNodes) && btList == old(btList)
    {
      ble, numBle, bleNodes, bleList := AddLowEnergy(report, ble, numBle, bleNodes, bleList);
    }

    /** What the radios report while the scan waits. */
    method Wait(reports: seq<Report>)
      requires Valid()
      modifies this, btNodes
      ensures Valid() && btList == Heard(old(btList), reports, true) && bleList == Heard(old(bleList), reports, false)
      ensures forall i | 0 <= i < |btNodes| :: btNodes[i] in old(btNodes) || fresh(btNodes[i])
    {
      for i := 0 to |reports|
        invariant Valid()
        invariant btList == Heard(old(btList), reports[..i], true)
        invariant bleList == Heard(old(bleList), reports[..i], false)
        invariant forall i | 0 <= i < |btNodes| :: btNodes[i] in old(btNodes) || fresh(btNodes[i])
      {
        HeardNext(old(btList), reports, i, true);
        HeardNext(old(bleList), reports, i, false);
        if reports[i].found.detail.Bt? {
          AddBtScanResult(reports[i]);
        } else {
          AddBleScanResult(reports[i]);
        }
      }
      assert reports[..|reports|] == reports;
    }

    /** Gives the lists away as one, with its length. */
    method HandOver() returns (count: nat, results: Node?, ghost nodes: seq<Node>)
      requires Valid()
      modifies this, btNodes
      ensures Valid() && btList == bleList == []
      ensures count == |nodes| && Chain(results, nodes, old(btList) + old(bleList), null)
    {
      count, nodes := numBt + numBle, btNodes + bleNodes;
      results := Join(bt, numBt, ble, btNodes, btList, bleNodes, bleList);
      Forget();
    }

    method Forget()
      modifies this
      ensures Valid() && btList == bleList == []
    {
      numBt, bt, numBle, ble := 0, null, 0, null;
      btNodes, btList, bleNodes, bleList := [], [], [], [];
    }

    /** Scans with both radios; old results are a failure. */
    method HidScan(how: Course) returns (ok: bool, count: nat, results: Node?, ghost nodes: seq<Node>)
      requires Valid()
      modifies this, btNodes
      ensures Valid() && Lists(btList, bleList) == Scan(old(Lists(btList, bleList)), how).0
      ensures match Scan(old(Lists(btList, bleList)), how).1
        case None => !ok
        case Some(es) => ok && count == |nodes| && Chain(results, nodes, es, null)
    {
      ok, count, results, nodes := false, 0, null, [];
      if numBt != 0 || bt != null || numBle != 0 || ble != null { return; }
      if !how.bleStarts { return; }
      Wait(how.early);
      if !how.btStarts { return; }
      Wait(how.late);
      count, results, nodes := HandOver();
      ok := true;
    }
  }

  lemma {:induction false} ChainConcat(head: Node?, a: seq<Node>, es: seq<Entry>, second: Node?, b: seq<Node>,
      fs: seq<Entry>)
    requires Chain(head, a, es, second) && Chain(second, b, fs, null)
    requires forall i, j | 0 <= i < |a| && 0 <= j < |b| :: a[i] != b[j]
    ensures Chain(head, a + b, es + fs, null)
    decreases |a|
  {
    if a == [] {
      assert a + b == b && es + fs == fs;
    } else {
      assert (a + b)[1..] == a[1..] + b && (es + fs)[1..] == es[1..] + fs;
      ChainConcat(a[0].next, a[1..], es[1..], second, b, fs);
    }
  }

  /** Links the end of one chain to the head of another; an empty one leaves the other. */
  method Join(first: Node?, num: nat, second: Node?,
              ghost a: seq<Node>, ghost es: seq<Entry>, ghost b: seq<Node>, ghost fs: seq<Entry>)
    returns (results: Node?)
    requires Chain(first, a, es, null) && Chain(second, b, fs, null) && num == |a|
    requires forall i, j | 0 <= i < |a| && 0 <= j < |b| :: a[i] != b[j]
    modifies a
    ensures Chain(results, a + b, es + fs, null)
  {
    ChainLinked(first, a, es, null);
    results := first;
    if num != 0 {
      var last := first;
      ghost var i := 0;
      while last.next != null
        invariant i < |a| && last == a[i]
        decreases |a| - i
      {
        last := last.next;
        i := i + 1;
      }
      last.next := second;
      LinkedChain(first, a, es, second);
    } else {
      results := second;
    }
    ChainConcat(results, a, es, second, b, fs);
  }
}
