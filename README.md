# Port scanner model

A Dafny model of two small TCP port scanners and the importer that fills the
Go scanner's service directory:

- **The Go scanner** (`portscanner/main.go`). A bubbletea terminal program
  probes every port from 1 through 65535. Each port that accepts a connection
  is looked up in a SQLite `services` table, and the result is sent to the
  view as a message. The view gathers the open ports in a map from port to
  service name. When the finish message arrives, it prints them in ascending
  order, one line each. A line carries `(service: …)` when the name is known.
- **The importer** (`portscanner/parser.go`). It reads the IANA
  service-name CSV and skips the header row. It also skips every record whose
  service name or port number is empty, and appends the rest to `services`.
- **The Rust sniffer** (`rust_port_sniffer/src/main.rs`). It parses the
  address, start port and end port, with guards and fallbacks. It probes the
  ports of `start_port..end_port` and pushes each open port onto a min-heap.
  It then prints an empty line and pops the heap, so the output is in
  ascending order.

Files:

- `wrappers.dfy`: `Option` and `Result`.
- `ordering.dfy`: sortedness, minimum, and the fact that two sorted
  arrangements of the same multiset are equal.
- `text.dfy`: decimal rendering of integers (Go's `%d`, Rust's `Display`)
  and the parser that inverts it.
- `service_import.dfy`: the importer. `ServicesTable` is a class whose
  `rows` field is the table.
- `scan_view.dfy`: the Go scanner. `Model` is a class with the fields of the
  Go `model` struct. `Update` and `View` are methods on it. `getService` is a
  function over the table. `RunScan` is a sequential driver for `main`.
- `port_sniffer.dfy`: the Rust sniffer. `PortHeap` is a class holding the
  heap's contents as a multiset. `DrainHeap`, `Drain` and `Sniff` are the
  collect and drain loops of `main`.

The environment is passed in as parameters rather than modelled:

- **Which ports accept a connection:** a function `isOpen`.
- **The order in which probes report:** a sequence `arrival`.
- **The database contents:** the table's rows, in insertion order.
- **Which probes reach the database:** a function `reachable`. Every probe
  opens and queries the database on its own, so one probe can fail while
  the others still read the table. A single lookup sees a `Directory`: either
  `Unavailable` (the database cannot be opened or queried) or `Table(rows)`.

Behaviour of the code worth knowing:

- **Quit key.** Pressing `q` or `ctrl+c` (`main.go:52-54`) returns
  `tea.Quit` but leaves `finished` false. The last view is therefore the
  scanning banner, and no report is shown. `Model.Update` does the same.
- **Lookup parameter.** The directory's `PortNumber` column is TEXT and
  `getService` binds an integer. SQLite compares them as text, so a row
  matches when its port column is exactly the decimal spelling of the port.
  `GetService` uses the first matching row in insertion order.
- **Rust range.** The sniffer's range `start_port..end_port` leaves out the
  end port, although its help text calls it "the last port to scan" (see
  Findings).

## Model

| member | source | states |
|---|---|---|
| ScanView.Model.constructor | portscanner/main.go:28-36 | `initialModel` stores the address and range, starts with no open ports and not finished |
| ScanView.Model.Update | portscanner/main.go:49-66 | a port result sets that port's service and leaves the rest of the map alone; the finish message sets `finished` and quits; a quit key quits without touching the map or `finished`; other keys and messages change nothing and return no command |
| ScanView.Model.View | portscanner/main.go:68-88 | before finishing, the view is the scanning banner; after, it is `Report(openPorts)`: the lines of all open ports in strictly ascending port order, each port once |
| ScanView.SortedKeys | portscanner/main.go:70-74 | the reference ordering of the report: strictly increasing, exactly the map's keys, as many as there are keys |
| ScanView.CollectKeys | portscanner/main.go:70-73 | the gathered slice is new and holds each key of the map exactly once |
| ScanView.SortInts | portscanner/main.go:74 | `sort.Ints`: the array ends non-decreasing and is a permutation of its old contents |
| ScanView.SinkLast | portscanner/main.go:74 | one insertion step of the sort: the prefix through `i` is in order, the elements after `i` are untouched, and the contents are a permutation |
| ScanView.SwapDown | portscanner/main.go:74 | the exchange step of the sort: two neighbours swap places, nothing else moves, and the contents are a permutation |
| ScanView.SortedKeysReport | portscanner/main.go:70-85 | any ascending arrangement of the keys, each once, is the reference ordering, so rendering it yields the report |
| ScanView.RenderLines | portscanner/main.go:76-85 | the concatenation loop yields the lines of the ports in slice order |
| ScanView.Line | portscanner/main.go:78-83 | the line of one port: it starts with the port in decimal and ends with a newline |
| ScanView.ReportOf | portscanner/main.go:76-85 | the lines of the given ports, in order: empty exactly when there are no ports |
| ScanView.Report | portscanner/main.go:68-85 | the finished view: empty exactly when no port is open |
| ScanView.LineReadsBack | portscanner/main.go:79-83 | a report line starts with the port's digits, which parse back to the port, followed by a space; it carries `(service: …)` exactly when the service is non-empty |
| ScanView.FirstMatch | portscanner/main.go:99-100 | the index found is the first row whose port column equals the text, or the end of the table when no row matches |
| ScanView.GetService | portscanner/main.go:90-109 | an unavailable database gives ""; on a readable table, the result is the name of the first row whose port column spells the port, and "" when no row does |
| ScanView.ImportedServiceSound | portscanner/main.go:98-108 | on an imported table, a non-empty lookup comes from a kept CSV record for that port |
| ScanView.ImportedServiceComplete | portscanner/main.go:98-108 | on an imported table, a port spelled by some kept CSV record gets a non-empty name |
| ScanView.ImportedServiceLookup | portscanner/main.go:98-108 | on an imported table, the lookup is non-empty exactly when some kept record spells the port (both directions) |
| ScanView.ImportedServiceFirst | portscanner/main.go:98-108 | on an imported table, the name found is the service name of the first kept record that spells the port |
| ScanView.ProbeService | portscanner/main.go:90-116 | the lookup one probe makes: the table's answer when that probe reaches the database, "" when it cannot |
| ScanView.AccumulatedAt | portscanner/main.go:57 | after a run of results with distinct ports, each result's port maps to that result's service |
| ScanView.AccumulatedElsewhere | portscanner/main.go:57 | a port that no result mentions keeps its old entry, or stays absent |
| ScanView.ArrivalOrderIrrelevant | portscanner/main.go:57 | two arrival orders of the same distinct-port results build the same map |
| ScanView.IsQuitKey | portscanner/main.go:52 | the keys that quit: `q` and `ctrl+c` |
| ScanView.Accumulated | portscanner/main.go:57 | recording results one at a time, as each message does: no port is removed, and every result's port ends up in the map |
| ScanView.ProbeResultsSnoc | portscanner/main.go:147-150 | forwarding one more result appends exactly that result |
| ScanView.ProbeResultsCollected | portscanner/main.go:135-151 | when every open port of the inclusive range reports once, in any order, the map is exactly the open ports of the range with their services |
| ScanView.ArrivalsBounded | portscanner/main.go:135-138 | the number of results the view ingests is at most the size of the scanned range |
| ScanView.PortRange | portscanner/main.go:135 | the ports from start through end, inclusive, and how many there are |
| ScanView.RunScan | portscanner/main.go:131-151 | when each open port of the range reports exactly once, in any order, driving the model with every result and then the finish message ends in `Quit`; the final view is the report of exactly the open ports from start through end, each with the service its own probe looked up |
| ScanView.ScanAllPorts | portscanner/main.go:127-151 | `main`'s fixed range 1 through 65535: the report of every open port with its probe's service, ending in `Quit`, with at most 65535 results |
| ServiceImport.FirstShort | portscanner/parser.go:47-50 | the position of the first record with fewer than three fields: every earlier record has three or more, the record there is short, and it is the end exactly when no record is short |
| ServiceImport.Kept | portscanner/parser.go:52-55 | a record is imported unless its service name or port number is empty |
| ServiceImport.RowOf | portscanner/parser.go:48-50 | definition: the row takes the record's first three fields as name, port and protocol |
| ServiceImport.ImportedRows | portscanner/parser.go:47-64 | the rows the loop appends: no more than the records, each with a non-empty name and port |
| ServiceImport.ImportedRowsAt | portscanner/parser.go:47-64 | a kept record's row comes right after the rows of the earlier records |
| ServiceImport.ImportStep | portscanner/parser.go:47-64 | one more record adds its row when kept, and nothing otherwise |
| ServiceImport.ImportedRowsAppend | portscanner/parser.go:47-68 | importing two batches in turn appends their rows in that order |
| ServiceImport.ImportedRowsSound | portscanner/parser.go:52-55 | every imported row comes from a kept record and has a non-empty name and port |
| ServiceImport.ImportedRowsComplete | portscanner/parser.go:52-64 | every kept record is imported |
| ServiceImport.ServicesTable.constructor | portscanner/parser.go:36-44 | `CREATE TABLE IF NOT EXISTS` on a new database: the table starts empty |
| ServiceImport.ServicesTable.Insert | portscanner/parser.go:57-67 | one row with the three fields is appended |
| ServiceImport.ServicesTable.ImportRecords | portscanner/parser.go:47-68 | the table gains the kept rows after the header, in order, up to the first short record; the run completes only when there is none; an empty file panics and changes nothing |
| Text.ParseNatToDecimal | portscanner/main.go:80-82 | reading back the decimal rendering of a port gives the port |
| Text.IntToDecimalInjective | portscanner/main.go:99-100 | two integers have the same decimal text exactly when they are equal, so the text lookup key identifies the port |
| PortSniffer.StartPortGuard | rust_port_sniffer/src/main.rs:43-45 | accepts exactly the non-zero ports |
| PortSniffer.EndPortGuard | rust_port_sniffer/src/main.rs:47-49 | accepts every `u16` |
| PortSniffer.ParseArguments | rust_port_sniffer/src/main.rs:21-41 | fails exactly when the start is given as 0, with the guard's message; a successful start is at least 1; given values are kept; each missing option falls back on its own (address 127.0.0.1, start 1, end 65535) |
| PortSniffer.ScannedPorts | rust_port_sniffer/src/main.rs:77 | `start..end` as written: the ports `start <= p < end` in increasing order, `end - start` of them |
| PortSniffer.ScannedPortsThrough | rust_port_sniffer/src/main.rs:33-40 | the inclusive range the help text describes: `start <= p <= end`, increasing |
| PortSniffer.EndPortNeverScanned | rust_port_sniffer/src/main.rs:77 | the end port is never in the range as written, but is in the inclusive one; with defaults, 65535 is never scanned |
| PortSniffer.OpenIn | rust_port_sniffer/src/main.rs:52-70 | the probes that connect: exactly the open ports of the range, increasing when the range is |
| PortSniffer.PortHeap.constructor | rust_port_sniffer/src/main.rs:83 | a new heap is empty |
| PortSniffer.PortHeap.Push | rust_port_sniffer/src/main.rs:85 | adds one occurrence of the port |
| PortSniffer.PortHeap.Pop | rust_port_sniffer/src/main.rs:88 | an empty heap gives `None` and stays empty; otherwise a least port is returned and one occurrence of it is removed |
| PortSniffer.OpenLines | rust_port_sniffer/src/main.rs:88-89 | one `<port> is open` line per popped port; the text is empty exactly when no port was popped |
| PortSniffer.PopExtendsOrder | rust_port_sniffer/src/main.rs:88-89 | printing the popped least port keeps the output ascending and below everything still in the heap |
| PortSniffer.DrainHeap | rust_port_sniffer/src/main.rs:88-90 | the heap ends empty; the printed ports are its old contents, non-decreasing, one `<port> is open` line each |
| PortSniffer.Drain | rust_port_sniffer/src/main.rs:83-90 | everything received is printed, nothing dropped or merged, in non-decreasing order, after an empty line |
| PortSniffer.Sniff | rust_port_sniffer/src/main.rs:73-90 | whatever order the open ports arrive in, the output is exactly the open ports of the scanned range, ascending |
| PortSniffer.SniffAsWritten | rust_port_sniffer/src/main.rs:74-90 | `main` as written, with the half-open range: the output is strictly ascending, holds exactly the open ports from start up to but not including end, and never the end port |
| PortSniffer.SniffArguments | rust_port_sniffer/src/main.rs:74-90 | with the inclusive range, the output is strictly ascending and holds exactly the open ports from start through end |

## Left out

- Networking. The TCP connect, the three-second timeout and the address
  formatting are not modelled. Whether a port is open is the parameter
  `isOpen`.
- Concurrency:
  - the goroutine per port, the `WaitGroup`, and closing the channel;
  - the forwarding goroutine;
  - tokio tasks, the 1000-permit semaphore, and the mpsc channel.

  Only the results are kept: each open port reports exactly once, in an
  arrival order given as a parameter. Early quit in the middle of a scan is
  covered by `Update` alone; the drivers always run to the finish message.
- The bubbletea runtime. `Init`, the event loop and terminal drawing are not
  modelled. The program is the `Update` and `View` methods.
- SQLite and CSV I/O are not modelled:
  - opening the database;
  - a database file that already holds the table from an earlier run (the
    constructor is `CREATE TABLE IF NOT EXISTS` on a new database, and a
    second `ImportRecords` on the same table appends duplicates);
  - preparing statements;
  - the `log.Fatal` exits on database errors;
  - CSV decoding (records arrive already split into fields).

  A lookup failure is `Directory.Unavailable` for that one probe.
- `ServiceImport.ServicesTable.ImportRecords`: `encoding/csv` with its
  default `FieldsPerRecord` (parser.go:22-26) rejects a file whose records
  have different field counts before any row is inserted. A short record
  after full ones therefore never reaches the loop. The model takes any
  records, so it also covers a short record partway through, as the loop
  itself would handle it.
- Printed diagnostics are not modelled: the error messages of `getService`,
  the success message of the importer, and the Rust progress dots.
- The Go usage check on `os.Args` is not modelled, and neither is bpaf's
  command-line syntax. The address is taken as given. `ParseArguments` covers
  only the guards and the fallbacks.
- An IPv6 address is a sequence of 16-bit segments. Its length is not
  constrained. Address parsing and `Display` are not modelled.
- `PortSniffer.PortHeap`: the binary heap's array layout and sift operations
  are not modelled. The heap is its multiset of contents, and pop takes a
  least element.
- `ScanView.GetService`: the first-match-in-insertion-order rule assumes
  SQLite returns rows in rowid order. Nothing in the query (no `ORDER BY`)
  guarantees this.
- Go map iteration order is not modelled. `CollectKeys` may put the keys in
  any order, and only the sorted result is specified.
- `ScanView.RunScan` takes any range. `main` always scans 1 through `MAX`
  (65535), which is `ScanView.ScanAllPorts`.

## Findings

| source | as written | input that shows it | evidently intended | confidence | as-written member | corrected member |
|---|---|---|---|---|---|---|
| rust_port_sniffer/src/main.rs:77 | `for i in opts.start_port..opts.end_port` probes `start_port` up to but excluding `end_port`, while the option's help text (main.rs:33) calls it the last port to scan | default arguments (start 1, end 65535): port 65535 is never probed; likewise `--start 80 --end 80` probes nothing | the inclusive range `start_port..=end_port` | high that the end port is skipped; medium that inclusion was intended; not executed | PortSniffer.ScannedPorts, PortSniffer.EndPortNeverScanned, PortSniffer.SniffAsWritten | PortSniffer.ScannedPortsThrough, PortSniffer.SniffArguments |
