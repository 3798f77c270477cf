/**
 * The Rust sniffer (rust_port_sniffer/src/main.rs): argument guards and
 * defaults, the range of ports it probes, and the min-heap that turns the
 * open ports received from the probing tasks into ascending output.
 */
module PortSniffer {
  import opened Wrappers
  import opened Ordering
  import opened Text

  type u8 = x: int | 0 <= x < 0x100
  type u16 = x: int | 0 <= x < 0x1_0000

  /** The highest TCP port. */
  const MAX: u16 := 65535

  datatype IpAddr = V4(a: u8, b: u8, c: u8, d: u8) | V6(segments: seq<u16>)

  /** The address scanned when none is given: 127.0.0.1. */
  const IPFALLBACK: IpAddr := V4(127, 0, 0, 1)

  datatype Arguments = Arguments(address: IpAddr, startPort: u16, endPort: u16)

  /** The guard on `--start`: zero is refused. */
  function StartPortGuard(input: u16): (accepted: bool)
    ensures accepted <==> input != 0
  {
    input > 0
  }

  /** The guard on `--end`: every `u16` is at most MAX, so nothing is refused. */
  function EndPortGuard(input: u16): (accepted: bool)
    ensures accepted
  {
    input <= MAX
  }

  /**
   * The argument values after the guards and fallbacks: each option is the
   * value given on the command line, if any.
   */
  function ParseArguments(address: Option<IpAddr>, start: Option<u16>, end: Option<u16>): (r: Result<Arguments, string>)
    ensures r.Err? <==> start == Some(0)
    ensures r.Err? ==> r.error == "Must be greater than 0"
    ensures r.Ok? ==> r.value.startPort >= 1
    ensures r.Ok? && address.Some? ==> r.value.address == address.value
    ensures r.Ok? && start.Some? ==> r.value.startPort == start.value
    ensures r.Ok? && end.Some? ==> r.value.endPort == end.value
    ensures r.Ok? && address.None? ==> r.value.address == IPFALLBACK
    ensures r.Ok? && start.None? ==> r.value.startPort == 1
    ensures r.Ok? && end.None? ==> r.value.endPort == MAX
    ensures address.None? && start.None? && end.None? ==> r == Ok(Arguments(IPFALLBACK, 1, MAX))
  {
    if start.Some? && !StartPortGuard(start.value) then Err("Must be greater than 0")
    else if end.Some? && !EndPortGuard(end.value) then Err("Must be less than or equal to 65535")
    else
      Ok(Arguments(
        if address.Some? then address.value else IPFALLBACK,
        if start.Some? then start.value else 1,
        if end.Some? then end.value else MAX))
  }

  /** `start_port..end_port`: the half-open range of ports `main` spawns a probe for. */
  function ScannedPorts(startPort: u16, endPort: u16): (r: seq<u16>)
    ensures |r| == if startPort < endPort then endPort - startPort else 0
    ensures forall i | 0 <= i < |r| :: r[i] == startPort + i
    ensures forall p :: p in r <==> startPort <= p < endPort
    ensures StrictlyIncreasing(r)
    decreases endPort - startPort
  {
    if startPort < endPort then [startPort] + ScannedPorts(startPort + 1, endPort) else []
  }

  /** `start_port..=end_port`: the range with the end port included, as its help text describes it. */
  function ScannedPortsThrough(startPort: u16, endPort: u16): (r: seq<u16>)
    ensures |r| == if startPort <= endPort then endPort - startPort + 1 else 0
    ensures forall i | 0 <= i < |r| :: r[i] == startPort + i
    ensures forall p :: p in r <==> startPort <= p <= endPort
    ensures StrictlyIncreasing(r)
    decreases endPort - startPort
  {
    if startPort < endPort then [startPort] + ScannedPortsThrough(startPort + 1, endPort)
    else if startPort == endPort then [startPort]
    else []
  }

  /**
   * The end port is never probed by the range as written, so with the
   * defaults port 65535 is never scanned; the inclusive range scans it.
   */
  lemma EndPortNeverScanned(startPort: u16, endPort: u16)
    ensures endPort !in ScannedPorts(startPort, endPort)
    ensures startPort <= endPort ==> endPort in ScannedPortsThrough(startPort, endPort)
    ensures MAX !in ScannedPorts(1, MAX) && MAX in ScannedPortsThrough(1, MAX)
  {
  }

  /** Putting the head of an increasing sequence before a subset of its tail keeps it increasing. */
  lemma PrependIncreasing(x: int, r: seq<int>, s: seq<int>)
    requires forall q | q in r :: q in s
    ensures StrictlyIncreasing([x] + s) && StrictlyIncreasing(r) ==> StrictlyIncreasing([x] + r)
  {
    if StrictlyIncreasing([x] + s) && StrictlyIncreasing(r) {
      var xr := [x] + r;
      forall i, j | 0 <= i < j < |xr| ensures xr[i] < xr[j] {
        if i == 0 {
          assert xr[j] == r[j - 1] && r[j - 1] in s;
          var k :| 0 <= k < |s| && s[k] == r[j - 1];
          assert ([x] + s)[0] == x && ([x] + s)[k + 1] == s[k];
          assert xr[0] == x;
        } else {
          assert xr[i] == r[i - 1] && xr[j] == r[j - 1];
          assert r[i - 1] < r[j - 1];
        }
      }
    }
  }

  /** The ports of `scanned` whose probe connects, in scan order. */
  function OpenIn(scanned: seq<u16>, isOpen: u16 -> bool): (r: seq<u16>)
    ensures forall p :: p in r <==> p in scanned && isOpen(p)
    ensures StrictlyIncreasing(scanned) ==> StrictlyIncreasing(r)
  {
    if scanned == [] then []
    else if isOpen(scanned[0]) then
      var rest := OpenIn(scanned[1..], isOpen);
      PrependIncreasing(scanned[0], rest, scanned[1..]);
      assert scanned == [scanned[0]] + scanned[1..];
      [scanned[0]] + rest
    else OpenIn(scanned[1..], isOpen)
  }

  /** The text printed for the drained ports: one `<port> is open` line each. */
  function OpenLines(ports: seq<u16>): (text: string)
    ensures text == "" <==> ports == []
  {
    if ports == [] then ""
    else OpenLines(ports[..|ports| - 1]) + NatToDecimal(ports[|ports| - 1]) + " is open\n"
  }

  /** `BinaryHeap<Reverse<u16>>`: a multiset of ports that pops its least element. */
  class PortHeap {
    var items: multiset<u16>

    constructor ()
      ensures items == multiset{}
    {
      items := multiset{};
    }

    method Push(port: u16)
      modifies this
      ensures items == old(items) + multiset{port}
    {
      items := items + multiset{port};
    }

    /** Removes and returns a least port; `None` when the heap is empty. */
    method Pop() returns (top: Option<u16>)
      modifies this
      ensures old(items) == multiset{} ==> top == None && items == old(items)
      ensures old(items) != multiset{} ==>
        top.Some? && IsMinOf(top.value, old(items)) && items == old(items) - multiset{top.value}
    {
      if items == multiset{} {
        return None;
      }
      MultisetHasMin(items);
      var least: u16 :| IsMinOf(least, items);
      items := items - multiset{least};
      return Some(least);
    }
  }

  /**
   * Appending the least remaining port keeps the printed ports ascending and
   * still below everything left in the heap.
   */
  lemma PopExtendsOrder(printed: seq<u16>, port: u16, before: multiset<u16>, after: multiset<u16>)
    requires NonDecreasing(printed)
    requires forall i, q | 0 <= i < |printed| && q in before :: printed[i] <= q
    requires IsMinOf(port, before) && after == before - multiset{port}
    ensures NonDecreasing(printed + [port])
    ensures forall i, q | 0 <= i < |printed + [port]| && q in after :: (printed + [port])[i] <= q
  {
    var longer := printed + [port];
    forall i, q | 0 <= i < |longer| && q in after ensures longer[i] <= q {
      assert q in before;
    }
  }

  /**
   * The `while let Some(Reverse(port)) = out.pop()` loop: empties the heap,
   * printing one line per port in the order popped.
   */
  method DrainHeap(heap: PortHeap) returns (printed: seq<u16>, text: string)
    modifies heap
    ensures heap.items == multiset{}
    ensures NonDecreasing(printed)
    ensures multiset(printed) == old(heap.items)
    ensures text == OpenLines(printed)
  {
    printed, text := [], "";
    while true
      invariant multiset(printed) + heap.items == old(heap.items)
      invariant NonDecreasing(printed)
      invariant forall i, q | 0 <= i < |printed| && q in heap.items :: printed[i] <= q
      invariant text == OpenLines(printed)
      decreases |heap.items|
    {
      label step:
      var top := heap.Pop();
      if top.None? {
        break;
      }
      var port := top.value;
      PopExtendsOrder(printed, port, old@step(heap.items), heap.items);
      ghost var before := printed;
      printed := printed + [port];
      assert printed[..|printed| - 1] == before;
      text := text + NatToDecimal(port) + " is open\n";
    }
  }

  /**
   * The end of `main`: every port received on the channel is pushed onto the
   * heap, then the heap is drained after an empty line. Ports come out in
   * ascending order, none dropped and none merged.
   */
  method Drain(received: seq<u16>) returns (printed: seq<u16>, text: string)
    ensures NonDecreasing(printed)
    ensures multiset(printed) == multiset(received)
    ensures text == "\n" + OpenLines(printed)
  {
    var heap := new PortHeap();
    for i := 0 to |received|
      invariant heap.items == multiset(received[..i])
    {
      heap.Push(received[i]);
      assert received[..i + 1] == received[..i] + [received[i]];
    }
    assert received[..|received|] == received;
    var lines;
    printed, lines := DrainHeap(heap);
    text := "\n" + lines;
  }

  /**
   * `main` without the tasks: one probe per port of `scanned`; the open ones
   * send their port in some order (`arrival`), and the heap drain prints
   * exactly the open ports of the range, ascending.
   */
  method Sniff(scanned: seq<u16>, isOpen: u16 -> bool, arrival: seq<u16>) returns (printed: seq<u16>, text: string)
    requires StrictlyIncreasing(scanned)
    requires multiset(arrival) == multiset(OpenIn(scanned, isOpen))
    ensures printed == OpenIn(scanned, isOpen)
    ensures text == "\n" + OpenLines(printed)
  {
    printed, text := Drain(arrival);
    var expected := OpenIn(scanned, isOpen);
    StrictlyIncreasingIsDistinct(expected);
    SortedEqual(printed, expected);
  }

  /**
   * `main` after argument parsing, with the end port included in the range:
   * the output lists every open port from the start port through the end
   * port, ascending and each once.
   */
  method SniffArguments(args: Arguments, isOpen: u16 -> bool, arrival: seq<u16>) returns (printed: seq<u16>, text: string)
    requires multiset(arrival) == multiset(OpenIn(ScannedPortsThrough(args.startPort, args.endPort), isOpen))
    ensures StrictlyIncreasing(printed)
    ensures forall p :: p in printed <==> args.startPort <= p <= args.endPort && isOpen(p)
    ensures text == "\n" + OpenLines(printed)
  {
    printed, text := Sniff(ScannedPortsThrough(args.startPort, args.endPort), isOpen, arrival);
  }

  /**
   * `main` as written, after argument parsing: the half-open range
   * `start_port..end_port` is probed, so the output lists the open ports
   * from the start port up to but not including the end port, ascending.
   */
  method SniffAsWritten(args: Arguments, isOpen: u16 -> bool, arrival: seq<u16>) returns (printed: seq<u16>, text: string)
    requires multiset(arrival) == multiset(OpenIn(ScannedPorts(args.startPort, args.endPort), isOpen))
    ensures StrictlyIncreasing(printed)
    ensures forall p :: p in printed <==> args.startPort <= p < args.endPort && isOpen(p)
    ensures args.endPort !in printed
    ensures text == "\n" + OpenLines(printed)
  {
    printed, text := Sniff(ScannedPorts(args.startPort, args.endPort), isOpen, arrival);
  }
}
