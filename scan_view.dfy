/**
 * The terminal scanner of portscanner/main.go: the bubbletea model that
 * accumulates open ports and renders the final report, the service-name
 * lookup, and a sequential stand-in for the concurrent scan loop.
 */
module ScanView {
  import opened Ordering
  import opened Text
  import opened ServiceImport

  /** The highest TCP port; the scan loop runs from 1 through MAX. */
  const MAX: int := 65535

  /** What `View` shows until the finish message arrives. */
  const ScanningBanner: string := "Scanning... Press q to quit\n"

  /**
   * The messages `Update` receives: a key press (by its `String()` form), one
   * open-port result, the finish sentinel, and any other runtime message.
   */
  datatype Msg =
    | KeyMsg(key: string)
    | PortScannedMsg(port: int, service: string)
    | FinishMsg
    | OtherMsg

  /** The command `Update` hands back to the runtime: none, or quit. */
  datatype Cmd = NoCmd | Quit

  /** The keys that end the program. */
  predicate IsQuitKey(key: string) {
    key == "q" || key == "ctrl+c"
  }

  // ---------------------------------------------------------------------
  // The final report

  /** The report line of one open port. */
  function Line(port: int, service: string): (line: string)
    ensures IntToDecimal(port) <= line && line[|line| - 1] == '\n'
  {
    if service != "" then IntToDecimal(port) + " is open (service: " + service + ")\n"
    else IntToDecimal(port) + " is open\n"
  }

  /**
   * A report line can be read back: it starts with the port's digits, which
   * parse to the port, followed by a space, and it carries the parenthesised
   * service annotation exactly when the service is known.
   */
  lemma LineReadsBack(port: int, service: string)
    requires port >= 0
    ensures var line, digits := Line(port, service), IntToDecimal(port);
      digits <= line && line[|digits|] == ' ' && AllDigits(digits) && ParseNat(digits) == port &&
      (service != "" <==> line[|line| - 2] == ')')
  {
    ParseNatToDecimal(port);
    var line, digits := Line(port, service), IntToDecimal(port);
    if service != "" {
      var tail := " is open (service: " + service + ")\n";
      assert line == digits + tail;
      assert line[|line| - 2] == tail[|tail| - 2] == ')';
    } else {
      var tail := " is open\n";
      assert line == digits + tail;
      assert line[|line| - 2] == tail[|tail| - 2] == 'n';
    }
  }

  /** The lines of the given ports, in the order given. */
  function ReportOf(ports: seq<int>, openPorts: map<int, string>): (report: string)
    requires forall i | 0 <= i < |ports| :: ports[i] in openPorts
    ensures report == "" <==> ports == []
  {
    if ports == [] then ""
    else
      var last := ports[|ports| - 1];
      ReportOf(ports[..|ports| - 1], openPorts) + Line(last, openPorts[last])
  }

  /** The keys in ascending order, each once. */
  ghost function SortedKeys(keys: set<int>): (r: seq<int>)
    ensures StrictlyIncreasing(r)
    ensures forall p :: p in r <==> p in keys
    ensures |r| == |keys|
    decreases |keys|
  {
    if keys == {} then []
    else
      SetHasMin(keys);
      var least :| least in keys && forall q | q in keys :: least <= q;
      [least] + SortedKeys(keys - {least})
  }

  /** The finished view: one line per open port, ascending by port. */
  ghost function Report(openPorts: map<int, string>): (report: string)
    ensures report == "" <==> openPorts.Keys == {}
  {
    ReportOf(SortedKeys(openPorts.Keys), openPorts)
  }

  // ---------------------------------------------------------------------
  // The service directory lookup

  /**
   * The `services` table as `getService` sees it: unreachable (the database
   * cannot be opened or the query fails) or readable with its rows in
   * insertion order.
   */
  datatype Directory = Unavailable | Table(rows: seq<Row>)

  /** The index of the first row whose port column is `portText`, or `|rows|`. */
  function FirstMatch(rows: seq<Row>, portText: string): (k: nat)
    ensures k <= |rows|
    ensures k < |rows| ==> rows[k].portNumber == portText
    ensures forall j | 0 <= j < k :: rows[j].portNumber != portText
  {
    if rows == [] then 0
    else if rows[0].portNumber == portText then 0
    else 1 + FirstMatch(rows[1..], portText)
  }

  /**
   * `SELECT ServiceName FROM services WHERE PortNumber = ?` with the port as
   * parameter, reading the first row only. The TEXT column compares against
   * the decimal text of the port. Every failure and a missing row give "".
   */
  function GetService(dir: Directory, port: int): (service: string)
    ensures dir.Unavailable? ==> service == ""
    ensures dir.Table? && service != "" ==>
      exists k | 0 <= k < |dir.rows| :: dir.rows[k].portNumber == IntToDecimal(port) && dir.rows[k].serviceName == service
    ensures dir.Table? && (forall k | 0 <= k < |dir.rows| :: dir.rows[k].portNumber != IntToDecimal(port)) ==>
      service == ""
    ensures dir.Table? ==>
      forall k | 0 <= k < |dir.rows| && dir.rows[k].portNumber == IntToDecimal(port) &&
        (forall j | 0 <= j < k :: dir.rows[j].portNumber != IntToDecimal(port)) ::
        service == dir.rows[k].serviceName
  {
    match dir
    case Unavailable => ""
    case Table(rows) =>
      var k := FirstMatch(rows, IntToDecimal(port));
      if k < |rows| then rows[k].serviceName else ""
  }

  /** On an imported table, a looked-up name comes from a kept record for that port. */
  lemma ImportedServiceSound(data: seq<Record>, port: int)
    requires WellFormed(data)
    ensures GetService(Table(ImportedRows(data)), port) != "" ==>
      exists i | 0 <= i < |data| :: Kept(data[i]) && data[i][1] == IntToDecimal(port)
  {
    var rows := ImportedRows(data);
    var k := FirstMatch(rows, IntToDecimal(port));
    if k < |rows| {
      ImportedRowsSound(data, rows[k]);
      var i :| 0 <= i < |data| && Kept(data[i]) && RowOf(data[i]) == rows[k];
      assert data[i][1] == IntToDecimal(port);
    }
  }

  /** On an imported table, a port some kept record spells gets a non-empty name. */
  lemma ImportedServiceComplete(data: seq<Record>, port: int, i: int)
    requires WellFormed(data)
    requires 0 <= i < |data| && Kept(data[i]) && data[i][1] == IntToDecimal(port)
    ensures GetService(Table(ImportedRows(data)), port) != ""
  {
    var rows := ImportedRows(data);
    var key := IntToDecimal(port);
    ImportedRowsComplete(data, i);
    var k0 :| 0 <= k0 < |rows| && rows[k0] == RowOf(data[i]);
    var k := FirstMatch(rows, key);
    assert k <= k0 by {
      assert rows[k0].portNumber == key;
    }
    ImportedRowsSound(data, rows[k]);
  }

  /**
   * On an imported table, the name found for a port is the service name of
   * the first kept record that spells the port.
   */
  lemma ImportedServiceFirst(data: seq<Record>, port: int, i: int)
    requires WellFormed(data)
    requires 0 <= i < |data| && Kept(data[i]) && data[i][1] == IntToDecimal(port)
    requires forall j | 0 <= j < i :: !(Kept(data[j]) && data[j][1] == IntToDecimal(port))
    ensures GetService(Table(ImportedRows(data)), port) == data[i][0]
  {
    var key := IntToDecimal(port);
    ImportedRowsAt(data, i);
    var rows, pre := ImportedRows(data), ImportedRows(data[..i]);
    forall j | 0 <= j < |pre| ensures rows[j].portNumber != key {
      assert rows[j] == pre[j];
      ImportedRowsSound(data[..i], pre[j]);
      var m :| 0 <= m < i && Kept(data[..i][m]) && RowOf(data[..i][m]) == pre[j];
      assert data[..i][m] == data[m];
    }
  }

  /**
   * On a table built by the importer, a port gets a service name exactly when
   * some imported record (non-empty name and port) spells that port.
   */
  lemma ImportedServiceLookup(data: seq<Record>, port: int)
    requires WellFormed(data)
    ensures GetService(Table(ImportedRows(data)), port) != "" <==>
      exists i | 0 <= i < |data| :: Kept(data[i]) && data[i][1] == IntToDecimal(port)
  {
    ImportedServiceSound(data, port);
    if i :| 0 <= i < |data| && Kept(data[i]) && data[i][1] == IntToDecimal(port) {
      ImportedServiceComplete(data, port, i);
    }
  }

  // ---------------------------------------------------------------------
  // Accumulating results

  /** The map after recording each (port, service) result in turn. */
  function Accumulated(openPorts: map<int, string>, results: seq<(int, string)>): (m: map<int, string>)
    ensures forall p | p in openPorts :: p in m
    ensures forall i | 0 <= i < |results| :: results[i].0 in m
  {
    if results == [] then openPorts
    else
      var last := results[|results| - 1];
      Accumulated(openPorts, results[..|results| - 1])[last.0 := last.1]
  }

  /** No two results are for the same port: each probe reports at most once. */
  predicate DistinctPorts(results: seq<(int, string)>) {
    forall i, j | 0 <= i < j < |results| :: results[i].0 != results[j].0
  }

  /** A prefix of results with distinct ports has distinct ports. */
  lemma DistinctPortsPrefix(results: seq<(int, string)>, n: nat)
    requires DistinctPorts(results) && n <= |results|
    ensures DistinctPorts(results[..n])
  {
    var init := results[..n];
    forall i, j | 0 <= i < j < |init| ensures init[i].0 != init[j].0 {
      assert init[i] == results[i] && init[j] == results[j];
    }
  }

  /** With one result per port, each result's port maps to that result's service. */
  lemma {:induction false} AccumulatedAt(openPorts: map<int, string>, results: seq<(int, string)>, i: int)
    requires DistinctPorts(results)
    requires 0 <= i < |results|
    ensures results[i].0 in Accumulated(openPorts, results)
    ensures Accumulated(openPorts, results)[results[i].0] == results[i].1
    decreases |results|
  {
    var n := |results| - 1;
    if i < n {
      var init := results[..n];
      DistinctPortsPrefix(results, n);
      assert init[i] == results[i];
      AccumulatedAt(openPorts, init, i);
      assert results[n].0 != results[i].0;
    }
  }

  /** A port no result mentions keeps its old entry, or stays absent. */
  lemma {:induction false} AccumulatedElsewhere(openPorts: map<int, string>, results: seq<(int, string)>, p: int)
    requires forall i | 0 <= i < |results| :: results[i].0 != p
    ensures p in Accumulated(openPorts, results) <==> p in openPorts
    ensures p in openPorts ==> Accumulated(openPorts, results)[p] == openPorts[p]
    decreases |results|
  {
    if results != [] {
      var n := |results| - 1;
      var init := results[..n];
      assert forall i | 0 <= i < |init| :: init[i] == results[i];
      AccumulatedElsewhere(openPorts, init, p);
    }
  }

  /**
   * The order in which distinct-port results arrive does not matter: any
   * permutation builds the same map.
   */
  lemma ArrivalOrderIrrelevant(r1: seq<(int, string)>, r2: seq<(int, string)>)
    requires DistinctPorts(r1) && DistinctPorts(r2)
    requires multiset(r1) == multiset(r2)
    ensures Accumulated(map[], r1) == Accumulated(map[], r2)
  {
    var a1, a2 := Accumulated(map[], r1), Accumulated(map[], r2);
    forall p ensures (p in a1 <==> p in a2) && (p in a1 ==> a1[p] == a2[p]) {
      if i :| 0 <= i < |r1| && r1[i].0 == p {
        assert r1[i] in multiset(r2);
        var j :| 0 <= j < |r2| && r2[j] == r1[i];
        AccumulatedAt(map[], r1, i);
        AccumulatedAt(map[], r2, j);
      } else {
        forall j | 0 <= j < |r2| ensures r2[j].0 != p {
          assert r2[j] in multiset(r1);
        }
        AccumulatedElsewhere(map[], r1, p);
        AccumulatedElsewhere(map[], r2, p);
      }
    }
  }

  // ---------------------------------------------------------------------
  // Sorting the collected ports (Go's sort.Ints)

  /** Sorts the slice in place into ascending order. */
  method SortInts(a: array<int>)
    modifies a
    ensures NonDecreasing(a[..])
    ensures multiset(a[..]) == old(multiset(a[..]))
  {
    var i := 0;
    while i < a.Length
      invariant 0 <= i <= a.Length
      invariant NonDecreasing(a[..i])
      invariant multiset(a[..]) == old(multiset(a[..]))
    {
      SinkLast(a, i);
      i := i + 1;
    }
    assert a[..i] == a[..];
  }

  /**
   * One pass of the insertion sort: `a[i]` moves down by adjacent swaps
   * until the prefix `a[..i + 1]` is in order.
   */
  method SinkLast(a: array<int>, i: int)
    requires 0 <= i < a.Length
    requires NonDecreasing(a[..i])
    modifies a
    ensures NonDecreasing(a[..i + 1])
    ensures a[i + 1..] == old(a[i + 1..])
    ensures multiset(a[..]) == old(multiset(a[..]))
  {
    var j := i;
    while j > 0 && a[j - 1] > a[j]
      invariant 0 <= j <= i
      invariant forall k, l | 0 <= k < l <= i && l != j :: a[k] <= a[l]
      invariant a[i + 1..] == old(a[i + 1..])
      invariant multiset(a[..]) == old(multiset(a[..]))
    {
      SwapDown(a, j);
      assert a[i + 1..] == a[j + 1..][i - j..];
      j := j - 1;
    }
  }

  /** Exchanges `a[j - 1]` and `a[j]`; every other element stays where it is. */
  method SwapDown(a: array<int>, j: int)
    requires 0 < j < a.Length
    modifies a
    ensures a[j - 1] == old(a[j]) && a[j] == old(a[j - 1])
    ensures forall k | 0 <= k < a.Length && k != j - 1 && k != j :: a[k] == old(a[k])
    ensures a[j + 1..] == old(a[j + 1..])
    ensures multiset(a[..]) == old(multiset(a[..]))
  {
    a[j - 1], a[j] := a[j], a[j - 1];
  }

  /** `SortedKeys` holds each key exactly once. */
  lemma SortedKeysOnce(keys: set<int>)
    ensures multiset(SortedKeys(keys)) == multiset(keys)
  {
    var sorted := SortedKeys(keys);
    StrictlyIncreasingIsDistinct(sorted);
    DistinctOccursOnce(sorted);
    assert (set x | x in sorted) == keys;
  }

  /**
   * Any ascending arrangement of the keys, each once, is `SortedKeys`, so
   * rendering it gives the report.
   */
  lemma SortedKeysReport(ports: seq<int>, openPorts: map<int, string>)
    requires NonDecreasing(ports)
    requires multiset(ports) == multiset(openPorts.Keys)
    ensures ports == SortedKeys(openPorts.Keys)
    ensures forall k | 0 <= k < |ports| :: ports[k] in openPorts
    ensures Report(openPorts) == ReportOf(ports, openPorts)
  {
    var sorted := SortedKeys(openPorts.Keys);
    SortedKeysOnce(openPorts.Keys);
    StrictlyIncreasingIsDistinct(sorted);
    SortedEqual(ports, sorted);
  }

  /** Taking one element out of a set removes exactly its one occurrence. */
  lemma TakeOne(rest: set<int>, port: int)
    requires port in rest
    ensures multiset(rest - {port}) + multiset{port} == multiset(rest)
  {
    assert rest == (rest - {port}) + {port};
  }

  /** The key-gathering loop: a new slice holding each key of the map once, in map iteration order. */
  method CollectKeys(openPorts: map<int, string>) returns (ports: array<int>)
    ensures fresh(ports)
    ensures multiset(ports[..]) == multiset(openPorts.Keys)
  {
    var keys := openPorts.Keys;
    ports := new int[|keys|];
    var rest := keys;
    var n := 0;
    while rest != {}
      invariant 0 <= n <= ports.Length && |rest| == ports.Length - n
      invariant multiset(ports[..n]) + multiset(rest) == multiset(keys)
      decreases |rest|
    {
      assert (forall x :: x !in rest) ==> rest == {};
      var port :| port in rest;
      ghost var prefix := ports[..n];
      ports[n] := port;
      assert ports[..n + 1] == prefix + [port];
      TakeOne(rest, port);
      rest := rest - {port};
      n := n + 1;
    }
    assert ports[..n] == ports[..];
  }

  /** The concatenation loop: one line per port of the slice, in slice order. */
  method RenderLines(ports: array<int>, openPorts: map<int, string>) returns (result: string)
    requires forall k | 0 <= k < ports.Length :: ports[k] in openPorts
    ensures result == ReportOf(ports[..], openPorts)
  {
    result := "";
    for i := 0 to ports.Length
      invariant result == ReportOf(ports[..i], openPorts)
    {
      assert ports[..i + 1][..i] == ports[..i];
      var port := ports[i];
      result := result + Line(port, openPorts[port]);
    }
    assert ports[..ports.Length] == ports[..];
  }

  // ---------------------------------------------------------------------
  // The model

  /** The scan view's state: the target, the accumulated open ports and whether the scan has finished. */
  class Model {
    var address: string
    var startPort: int
    var endPort: int
    var openPorts: map<int, string>
    var finished: bool

    /** `initialModel`: no open ports yet, not finished. */
    constructor (address: string, startPort: int, endPort: int)
      ensures this.address == address && this.startPort == startPort && this.endPort == endPort
      ensures openPorts == map[] && !finished
    {
      this.address := address;
      this.startPort := startPort;
      this.endPort := endPort;
      openPorts := map[];
      finished := false;
    }

    /** The state machine: records a result, finishes, or quits on a quit key. */
    method Update(msg: Msg) returns (cmd: Cmd)
      modifies this
      ensures address == old(address) && startPort == old(startPort) && endPort == old(endPort)
      ensures msg.KeyMsg? ==>
        openPorts == old(openPorts) && finished == old(finished) &&
        cmd == (if IsQuitKey(msg.key) then Quit else NoCmd)
      ensures msg.PortScannedMsg? ==>
        openPorts == old(openPorts)[msg.port := msg.service] && finished == old(finished) && cmd == NoCmd
      ensures msg.FinishMsg? ==> openPorts == old(openPorts) && finished && cmd == Quit
      ensures msg.OtherMsg? ==> openPorts == old(openPorts) && finished == old(finished) && cmd == NoCmd
    {
      match msg {
        case KeyMsg(key) =>
          if IsQuitKey(key) {
            return Quit;
          }
        case PortScannedMsg(port, service) =>
          openPorts := openPorts[port := service];
        case FinishMsg =>
          finished := true;
          return Quit;
        case OtherMsg =>
      }
      return NoCmd;
    }

    /**
     * Renders the view: the banner while scanning; once finished, one line
     * per open port in ascending order, annotated with its service when the
     * name is known.
     */
    method View() returns (s: string)
      ensures !finished ==> s == ScanningBanner
      ensures finished ==> s == Report(openPorts)
    {
      if !finished {
        return ScanningBanner;
      }
      var ports := CollectKeys(openPorts);
      SortInts(ports);
      SortedKeysReport(ports[..], openPorts);
      s := RenderLines(ports, openPorts);
    }
  }

  // ---------------------------------------------------------------------
  // The scan, driven sequentially

  /** The open ports of the scanned range, each with the service `lookup` gives it. */
  ghost function OpenPortServices(startPort: int, endPort: int, isOpen: int -> bool, lookup: int -> string): map<int, string> {
    map p | startPort <= p <= endPort && isOpen(p) :: lookup(p)
  }

  /** The results the probes of the open ports send, in arrival order. */
  function ProbeResults(lookup: int -> string, arrival: seq<int>): seq<(int, string)>
  {
    seq(|arrival|, k requires 0 <= k < |arrival| => (arrival[k], lookup(arrival[k])))
  }

  /** One more arrival adds its result at the end. */
  lemma ProbeResultsSnoc(lookup: int -> string, arrival: seq<int>, i: int)
    requires 0 <= i < |arrival|
    ensures ProbeResults(lookup, arrival[..i + 1]) == ProbeResults(lookup, arrival[..i]) + [(arrival[i], lookup(arrival[i]))]
  {
    var longer, shorter := ProbeResults(lookup, arrival[..i + 1]), ProbeResults(lookup, arrival[..i]);
    assert longer[i] == (arrival[i], lookup(arrival[i]));
    assert forall k | 0 <= k < i :: longer[k] == shorter[k];
  }

  /**
   * When every open port of the range reports exactly once, in any order,
   * the accumulated map is the open ports of the range with their services.
   */
  lemma ProbeResultsCollected(startPort: int, endPort: int, isOpen: int -> bool, lookup: int -> string, arrival: seq<int>)
    requires Distinct(arrival)
    requires forall p :: p in arrival <==> startPort <= p <= endPort && isOpen(p)
    ensures Accumulated(map[], ProbeResults(lookup, arrival)) == OpenPortServices(startPort, endPort, isOpen, lookup)
  {
    var results := ProbeResults(lookup, arrival);
    assert DistinctPorts(results);
    var acc := Accumulated(map[], results);
    var expected := OpenPortServices(startPort, endPort, isOpen, lookup);
    forall p ensures (p in acc <==> p in expected) && (p in acc ==> acc[p] == expected[p]) {
      if p in arrival {
        var k :| 0 <= k < |arrival| && arrival[k] == p;
        AccumulatedAt(map[], results, k);
      } else {
        AccumulatedElsewhere(map[], results, p);
      }
    }
  }

  /** The ports from `lo` through `hi`. */
  ghost function PortRange(lo: int, hi: int): (r: set<int>)
    ensures forall p :: p in r <==> lo <= p <= hi
    ensures |r| == if lo <= hi then hi - lo + 1 else 0
    decreases hi - lo
  {
    if lo <= hi then {lo} + PortRange(lo + 1, hi) else {}
  }

  /** A subset is no larger than its superset. */
  lemma {:induction false} SubsetSize(small: set<int>, large: set<int>)
    requires small <= large
    ensures |small| <= |large|
    decreases |small|
  {
    if small != {} {
      assert (forall y :: y !in small) ==> small == {};
      var x :| x in small;
      SubsetSize(small - {x}, large - {x});
    }
  }

  /**
   * At most one result per scanned port reaches the view: the number of
   * results is bounded by the size of the range.
   */
  lemma ArrivalsBounded(startPort: int, endPort: int, isOpen: int -> bool, arrival: seq<int>)
    requires Distinct(arrival)
    requires forall p :: p in arrival <==> startPort <= p <= endPort && isOpen(p)
    ensures |arrival| <= if startPort <= endPort then endPort - startPort + 1 else 0
  {
    var seen := set x: int | x in arrival;
    DistinctOccursOnce(arrival);
    assert |arrival| == |multiset(arrival)| == |multiset(seen)| == |seen|;
    SubsetSize(seen, PortRange(startPort, endPort));
  }

  /**
   * The lookup one probe makes: every probe opens and queries the database on
   * its own, so a probe that cannot reach it gets "" while the others still
   * read the table.
   */
  function ProbeService(rows: seq<Row>, reachable: bool, port: int): (service: string)
    ensures service == "" || service == GetService(Table(rows), port)
    ensures reachable ==> service == GetService(Table(rows), port)
    ensures !reachable ==> service == ""
  {
    GetService(if reachable then Table(rows) else Unavailable, port)
  }

  /**
   * `main` without the goroutines: every port of `startPort..endPort`
   * (inclusive) is probed; `arrival` is the order in which the open ones
   * report, each once. The probe of port `p` reaches the database when
   * `reachable(p)` holds. Each result is fed to `Update`, then the finish
   * message, and the final view is rendered. The report depends only on
   * which ports are open and which probes reached the database, not on the
   * arrival order.
   */
  method RunScan(address: string, startPort: int, endPort: int, isOpen: int -> bool,
                 rows: seq<Row>, reachable: int -> bool, arrival: seq<int>)
    returns (report: string, cmd: Cmd)
    requires Distinct(arrival)
    requires forall p :: p in arrival <==> startPort <= p <= endPort && isOpen(p)
    ensures cmd == Quit
    ensures report == Report(OpenPortServices(startPort, endPort, isOpen, p => ProbeService(rows, reachable(p), p)))
  {
    ghost var lookup := p => ProbeService(rows, reachable(p), p);
    var model := new Model(address, startPort, endPort);
    for i := 0 to |arrival|
      invariant model.openPorts == Accumulated(map[], ProbeResults(lookup, arrival[..i])) && !model.finished
    {
      var service := ProbeService(rows, reachable(arrival[i]), arrival[i]);
      var c := model.Update(PortScannedMsg(arrival[i], service));
      ProbeResultsSnoc(lookup, arrival, i);
    }
    cmd := model.Update(FinishMsg);
    report := model.View();
    assert arrival[..|arrival|] == arrival;
    ProbeResultsCollected(startPort, endPort, isOpen, lookup, arrival);
  }

  /** `main` as written: the model is created for ports 1 through `MAX` and the whole range is scanned. */
  method ScanAllPorts(address: string, isOpen: int -> bool, rows: seq<Row>, reachable: int -> bool, arrival: seq<int>)
    returns (report: string, cmd: Cmd)
    requires Distinct(arrival)
    requires forall p :: p in arrival <==> 1 <= p <= MAX && isOpen(p)
    ensures cmd == Quit
    ensures report == Report(OpenPortServices(1, MAX, isOpen, p => ProbeService(rows, reachable(p), p)))
    ensures |arrival| <= MAX
  {
    report, cmd := RunScan(address, 1, MAX, isOpen, rows, reachable, arrival);
    ArrivalsBounded(1, MAX, isOpen, arrival);
  }
}
