/** The CSV export of a network scan, and a reader that gives the table back. */
module ScanCsv {
  import opened Options

  datatype Port = Port(port: nat, service: string)

  datatype Host = Host(
    ip: string, mac: Option<string>, vendor: Option<string>, hostname: Option<string>,
    openPorts: seq<Port>, at: string)

  const BYTE_ORDER_MARK := "\U{FEFF}"
  const HEADER := ["IP", "MAC", "Vendor", "Hostname", "Open ports", "RTT", "Last seen"]

  // ---- Printing ----

  function DoubleQuotes(value: string): string {
    if value == "" then ""
    else (if value[0] == '"' then "\"\"" else [value[0]]) + DoubleQuotes(value[1..])
  }

  function CsvCell(value: string): string {
    "\"" + DoubleQuotes(value) + "\""
  }

  function Join(parts: seq<string>, separator: string): string {
    if parts == [] then "" else if |parts| == 1 then parts[0] else parts[0] + separator + Join(parts[1..], separator)
  }

  function Map<T>(f: T -> string, xs: seq<T>): (r: seq<string>)
    ensures |r| == |xs|
  {
    if xs == [] then [] else [f(xs[0])] + Map(f, xs[1..])
  }

  function CsvRecord(record: seq<string>): string {
    Join(Map(CsvCell, record), ",")
  }

  function PrintTable(records: seq<seq<string>>): string {
    BYTE_ORDER_MARK + Join(Map(CsvRecord, records), "\n") + "\n"
  }

  function Decimal(n: nat): string {
    (if n < 10 then "" else Decimal(n / 10)) + [Digit(n % 10)]
  }

  function Digit(d: nat): char
    requires d < 10
  {
    '0' + d as char
  }

  function PortText(port: Port): string {
    Decimal(port.port) + " " + port.service
  }

  function PortCell(ports: seq<Port>): string {
    Join(Map(PortText, ports), " ")
  }

  function RecordOf(host: Host): seq<string> {
    [host.ip, host.mac.GetOr(""), host.vendor.GetOr(""), host.hostname.GetOr(""),
     PortCell(host.openPorts), "", host.at]
  }

  function Table(hosts: seq<Host>): seq<seq<string>> {
    [HEADER] + seq(|hosts|, i requires 0 <= i < |hosts| => RecordOf(hosts[i]))
  }

  function BuildScanCsv(hosts: seq<Host>): string {
    PrintTable(Table(hosts))
  }

  // ---- Reading: section 2 of RFC 4180, with LF for a line break and an optional byte order mark ----

  /** The rest of an escaped field after its opening quote, and the text behind its closing quote. */
  function ReadEscaped(text: string): (r: Option<(string, string)>)
    ensures r.Some? ==> |r.value.1| < |text|
  {
    if text == "" then None
    else if text[0] == '"' && (|text| == 1 || text[1] != '"') then Some(("", text[1..]))
    else
      match ReadEscaped(if text[0] == '"' then text[2..] else text[1..])
      case None => None
      case Some((value, rest)) => Some(([text[0]] + value, rest))
  }

  /** A field without quotes runs up to the next comma, line break or quote. */
  function ReadPlain(text: string): (r: (string, string))
    ensures r.0 + r.1 == text
  {
    if text == "" || text[0] == ',' || text[0] == '\n' || text[0] == '"' then ("", text)
    else var (value, rest) := ReadPlain(text[1..]); ([text[0]] + value, rest)
  }

  function ReadField(text: string): (r: Option<(string, string)>)
    ensures r.Some? ==> |r.value.1| <= |text|
  {
    if text != "" && text[0] == '"' then ReadEscaped(text[1..])
    else
      var r := ReadPlain(text);
      assert |r.0| + |r.1| == |text|;
      Some(r)
  }

  /** One record and the text after its line break. */
  function ReadRecord(text: string): (r: Option<(seq<string>, string)>)
    ensures r.Some? && text != "" ==> |r.value.1| < |text|
    decreases |text|
  {
    match ReadField(text)
    case None => None
    case Some((value, rest)) =>
      if rest == "" then Some(([value], ""))
      else if rest[0] == '\n' then Some(([value], rest[1..]))
      else if rest[0] != ',' then None
      else
        match ReadRecord(rest[1..])
        case None => None
        case Some((values, after)) => Some(([value] + values, after))
  }

  function ReadRecords(text: string): Option<seq<seq<string>>>
    decreases |text|
  {
    if text == "" then Some([])
    else
      match ReadRecord(text)
      case None => None
      case Some((record, rest)) =>
        match ReadRecords(rest)
        case None => None
        case Some(records) => Some([record] + records)
  }

  function ReadTable(text: string): Option<seq<seq<string>>> {
    ReadRecords(if text != "" && text[..1] == BYTE_ORDER_MARK then text[1..] else text)
  }

  // ---- Round trip ----

  lemma ReadsPlainChar(c: char, tail: string, value: string, rest: string)
    requires c != '"' && ReadEscaped(tail) == Some((value, rest))
    ensures ReadEscaped([c] + tail) == Some(([c] + value, rest))
  {
    assert ([c] + tail)[1..] == tail;
  }

  lemma ReadsDoubledQuote(tail: string, value: string, rest: string)
    requires ReadEscaped(tail) == Some((value, rest))
    ensures ReadEscaped("\"\"" + tail) == Some((['"'] + value, rest))
  {
    assert ("\"\"" + tail)[2..] == tail;
  }

  lemma PrintedStart(value: string, rest: string)
    requires value != ""
    ensures [value[0]] + value[1..] == value
    ensures DoubleQuotes(value) + "\"" + rest ==
            (if value[0] == '"' then "\"\"" else [value[0]]) + (DoubleQuotes(value[1..]) + "\"" + rest)
  {
  }

  lemma {:induction false} ReadsEscapedBack(value: string, rest: string)
    requires rest == "" || rest[0] != '"'
    ensures ReadEscaped(DoubleQuotes(value) + "\"" + rest) == Some((value, rest))
  {
    if value == "" {
      assert ("\"" + rest)[1..] == rest;
      assert DoubleQuotes(value) + "\"" + rest == "\"" + rest;
    } else {
      var tail := DoubleQuotes(value[1..]) + "\"" + rest;
      ReadsEscapedBack(value[1..], rest);
      PrintedStart(value, rest);
      hide ReadEscaped, DoubleQuotes;
      if value[0] == '"' {
        ReadsDoubledQuote(tail, value[1..], rest);
      } else {
        ReadsPlainChar(value[0], tail, value[1..], rest);
      }
    }
  }

  lemma ReadsCellBack(value: string, rest: string)
    requires rest == "" || rest[0] != '"'
    ensures ReadField(CsvCell(value) + rest) == Some((value, rest))
  {
    ReadsEscapedBack(value, rest);
    assert (CsvCell(value) + rest)[1..] == DoubleQuotes(value) + "\"" + rest;
  }

  lemma ReadsLastCell(value: string, rest: string)
    ensures ReadRecord(CsvCell(value) + ("\n" + rest)) == Some(([value], rest))
  {
    hide ReadField, CsvCell;
    ReadsCellBack(value, "\n" + rest);
    assert ("\n" + rest)[1..] == rest;
  }

  lemma ReadsNextCell(value: string, tail: string, values: seq<string>, rest: string)
    requires ReadRecord(tail) == Some((values, rest))
    ensures ReadRecord(CsvCell(value) + ("," + tail)) == Some(([value] + values, rest))
  {
    hide ReadField, CsvCell;
    ReadsCellBack(value, "," + tail);
    assert ("," + tail)[1..] == tail;
  }

  lemma {:induction false} ReadsRecordBack(record: seq<string>, rest: string)
    requires record != []
    ensures ReadRecord(CsvRecord(record) + "\n" + rest) == Some((record, rest))
  {
    hide ReadField, CsvCell, ReadRecord;
    if |record| == 1 {
      ReadsLastCell(record[0], rest);
      assert CsvRecord(record) + "\n" + rest == CsvCell(record[0]) + ("\n" + rest);
      assert [record[0]] == record;
    } else {
      var tail := CsvRecord(record[1..]) + "\n" + rest;
      ReadsRecordBack(record[1..], rest);
      ReadsNextCell(record[0], tail, record[1..], rest);
      assert Map(CsvCell, record)[1..] == Map(CsvCell, record[1..]);
      assert CsvRecord(record) + "\n" + rest == CsvCell(record[0]) + ("," + tail);
      assert [record[0]] + record[1..] == record;
    }
  }

  lemma {:induction false} ReadsRecordsBack(records: seq<seq<string>>)
    requires records != [] && forall i :: 0 <= i < |records| ==> records[i] != []
    ensures ReadRecords(Join(Map(CsvRecord, records), "\n") + "\n") == Some(records)
  {
    hide ReadRecord, CsvRecord;
    var text := Join(Map(CsvRecord, records), "\n") + "\n";
    if |records| == 1 {
      ReadsRecordBack(records[0], "");
      assert text == CsvRecord(records[0]) + "\n" + "";
      assert [records[0]] + [] == records;
    } else {
      var tail := Join(Map(CsvRecord, records[1..]), "\n") + "\n";
      ReadsRecordsBack(records[1..]);
      ReadsRecordBack(records[0], tail);
      assert Map(CsvRecord, records)[1..] == Map(CsvRecord, records[1..]);
      assert text == CsvRecord(records[0]) + "\n" + tail;
      assert [records[0]] + records[1..] == records;
    }
  }

  /** Reading a printed table gives the table back, whatever quotes, commas and line breaks its cells hold. */
  lemma TableRoundTrip(records: seq<seq<string>>)
    requires records != [] && forall i :: 0 <= i < |records| ==> records[i] != []
    ensures ReadTable(PrintTable(records)) == Some(records)
  {
    hide ReadRecords;
    ReadsRecordsBack(records);
    assert PrintTable(records)[1..] == Join(Map(CsvRecord, records), "\n") + "\n";
    assert PrintTable(records)[..1] == BYTE_ORDER_MARK;
  }

  /** The export of a scan reads back as the header and one seven-field record per host. */
  lemma ScanReadsBack(hosts: seq<Host>)
    ensures ReadTable(BuildScanCsv(hosts)) == Some(Table(hosts))
  {
    TableRoundTrip(Table(hosts));
  }

  /** The cell of host i under a column of the header. */
  function CellUnder(hosts: seq<Host>, i: nat, column: nat): string
    requires i < |hosts| && column < |HEADER|
  {
    Table(hosts)[i + 1][column]
  }

  /** Every cell stands under its own title, a missing value is empty, and the RTT column is always empty. */
  lemma CellsMatchTheHeader(hosts: seq<Host>, i: nat, column: nat)
    requires i < |hosts| && column < |HEADER|
    ensures |Table(hosts)| == |hosts| + 1 && Table(hosts)[0] == HEADER && |Table(hosts)[i + 1]| == |HEADER|
    ensures HEADER[column] == "IP" ==> CellUnder(hosts, i, column) == hosts[i].ip
    ensures HEADER[column] == "MAC" ==> CellUnder(hosts, i, column) == hosts[i].mac.GetOr("")
    ensures HEADER[column] == "Vendor" ==> CellUnder(hosts, i, column) == hosts[i].vendor.GetOr("")
    ensures HEADER[column] == "Hostname" ==> CellUnder(hosts, i, column) == hosts[i].hostname.GetOr("")
    ensures HEADER[column] == "Open ports" ==> CellUnder(hosts, i, column) == PortCell(hosts[i].openPorts)
    ensures HEADER[column] == "RTT" ==> CellUnder(hosts, i, column) == ""
    ensures HEADER[column] == "Last seen" ==> CellUnder(hosts, i, column) == hosts[i].at
  {
    assert HEADER[column] == ["IP", "MAC", "Vendor", "Hostname", "Open ports", "RTT", "Last seen"][column];
    assert "IP"[0] == 'I' && "MAC"[0] == 'M' && "Vendor"[0] == 'V' && "Hostname"[0] == 'H' && "Open ports"[0] == 'O';
    assert "RTT"[0] == 'R' && "Last seen"[0] == 'L';
  }

  lemma {:induction false} PlainTextIsKept(value: string)
    requires '"' !in value
    ensures DoubleQuotes(value) == value
  {
    if value != "" {
      PlainTextIsKept(value[1..]);
      assert value == [value[0]] + value[1..];
    }
  }

  /** Every cell stands between quotes, and a text without quotes stands there as it is. */
  lemma CellsAreQuoted(value: string)
    ensures |CsvCell(value)| >= 2 && CsvCell(value)[0] == '"' && CsvCell(value)[|CsvCell(value)| - 1] == '"'
    ensures '"' !in value ==> CsvCell(value) == "\"" + value + "\""
  {
    if '"' !in value {
      PlainTextIsKept(value);
    }
  }

  lemma {:induction false} JoinSnoc(parts: seq<string>, part: string, separator: string)
    requires parts != []
    ensures Join(parts + [part], separator) == Join(parts, separator) + separator + part
  {
    if |parts| > 1 {
      JoinSnoc(parts[1..], part, separator);
      assert (parts + [part])[1..] == parts[1..] + [part];
    } else {
      assert (parts + [part])[1..] == [part];
    }
  }

  lemma {:induction false} MapSnoc<T>(f: T -> string, xs: seq<T>, x: T)
    ensures Map(f, xs + [x]) == Map(f, xs) + [f(x)]
  {
    if xs != [] {
      MapSnoc(f, xs[1..], x);
      assert (xs + [x])[1..] == xs[1..] + [x];
    }
  }

  /** One more host is one more line: its seven cells quoted, with commas between them and a line feed at the end. */
  lemma EachHostIsALine(hosts: seq<Host>, host: Host)
    ensures BuildScanCsv(hosts + [host]) ==
            BuildScanCsv(hosts) +
            (CsvCell(host.ip) + "," + CsvCell(host.mac.GetOr("")) + "," + CsvCell(host.vendor.GetOr("")) + "," +
             CsvCell(host.hostname.GetOr("")) + "," + CsvCell(PortCell(host.openPorts)) + "," + CsvCell("") + "," +
             CsvCell(host.at) + "\n")
  {
    hide CsvCell, PortCell, Join, Map, CsvRecord, PrintTable;
    RecordIsSevenCells(RecordOf(host));
    assert Table(hosts + [host]) == Table(hosts) + [RecordOf(host)];
    hide Table, RecordOf;
    OneMoreRecord(Table(hosts), RecordOf(host));
  }

  lemma OneMoreRecord(records: seq<seq<string>>, record: seq<string>)
    requires records != []
    ensures PrintTable(records + [record]) == PrintTable(records) + (CsvRecord(record) + "\n")
  {
    MapSnoc(CsvRecord, records, record);
    JoinSnoc(Map(CsvRecord, records), CsvRecord(record), "\n");
    hide Join, Map, CsvRecord;
  }

  lemma RecordIsSevenCells(r: seq<string>)
    requires |r| == 7
    ensures CsvRecord(r) == CsvCell(r[0]) + "," + CsvCell(r[1]) + "," + CsvCell(r[2]) + "," + CsvCell(r[3]) + "," +
                            CsvCell(r[4]) + "," + CsvCell(r[5]) + "," + CsvCell(r[6])
  {
    hide CsvCell, CsvRecord;
    JoinRecord(r, 0);
    JoinRecord(r, 1);
    JoinRecord(r, 2);
    JoinRecord(r, 3);
    JoinRecord(r, 4);
    JoinRecord(r, 5);
    JoinRecord(r, 6);
    assert r[..7] == r;
  }

  lemma {:induction false} JoinRecord(r: seq<string>, k: nat)
    requires k < |r|
    ensures CsvRecord(r[..k + 1]) == if k == 0 then CsvCell(r[0]) else CsvRecord(r[..k]) + "," + CsvCell(r[k])
  {
    hide CsvCell;
    assert r[..k + 1] == r[..k] + [r[k]];
    MapSnoc(CsvCell, r[..k], r[k]);
    if k > 0 {
      JoinSnoc(Map(CsvCell, r[..k]), CsvCell(r[k]), ",");
    }
  }

  /** The export of an empty scan is the byte order mark and the line of the titles. */
  lemma EmptyScanIsTheHeader()
    ensures BuildScanCsv([]) ==
            "\U{FEFF}" + ("\"IP\"" + "," + "\"MAC\"" + "," + "\"Vendor\"" + "," + "\"Hostname\"" + "," +
                         "\"Open ports\"" + "," + "\"RTT\"" + "," + "\"Last seen\"") + "\n"
  {
    TitlesAreQuoted();
    assert Table([]) == [HEADER];
    OnlyTheHeader();
    hide CsvCell, CsvRecord, PrintTable, Map, Join, Table;
    RecordIsSevenCells(HEADER);
  }

  lemma OnlyTheHeader()
    ensures PrintTable([HEADER]) == "\U{FEFF}" + CsvRecord(HEADER) + "\n"
  {
    hide CsvRecord;
    assert Map(CsvRecord, [HEADER]) == [CsvRecord(HEADER)];
  }

  lemma TitlesAreQuoted()
    ensures CsvCell("IP") == "\"IP\"" && CsvCell("MAC") == "\"MAC\"" && CsvCell("Vendor") == "\"Vendor\""
    ensures CsvCell("Hostname") == "\"Hostname\"" && CsvCell("Open ports") == "\"Open ports\""
    ensures CsvCell("RTT") == "\"RTT\"" && CsvCell("Last seen") == "\"Last seen\""
  {
    hide CsvCell;
    CellsAreQuoted("IP");
    CellsAreQuoted("MAC");
    CellsAreQuoted("Vendor");
    CellsAreQuoted("Hostname");
    CellsAreQuoted("Open ports");
    CellsAreQuoted("RTT");
    CellsAreQuoted("Last seen");
  }

  /** A port is its number, a space and its service; ports follow each other after a space. */
  lemma PortsFollowEachOther(p: Port, rest: seq<Port>)
    ensures PortCell([]) == "" && PortCell([p]) == Decimal(p.port) + " " + p.service
    ensures rest != [] ==> PortCell([p] + rest) == Decimal(p.port) + " " + p.service + " " + PortCell(rest)
  {
    hide Decimal;
    assert ([p] + rest)[1..] == rest;
    assert Map(PortText, [p]) == [PortText(p)];
    assert Map(PortText, [p] + rest)[1..] == Map(PortText, rest);
  }

  // ---- What the export keeps of a host ----

  predicate HasNoSpace(s: string) {
    ' ' !in s
  }

  /** The words of a text one character longer. */
  function Longer(c: char, words: seq<string>): (r: seq<string>)
    requires words != []
    ensures r != []
  {
    if c == ' ' then [""] + words else [[c] + words[0]] + words[1..]
  }

  /** The words between single spaces. */
  function Split(text: string): (r: seq<string>)
    ensures r != []
  {
    if text == "" then [""] else Longer(text[0], Split(text[1..]))
  }

  lemma {:induction false} SplitFirst(word: string, rest: string)
    requires HasNoSpace(word)
    ensures Split(word) == [word]
    ensures Split(word + " " + rest) == [word] + Split(rest)
  {
    if word == "" {
      assert (word + " " + rest)[1..] == rest;
    } else {
      SplitFirst(word[1..], rest);
      assert (word + " " + rest)[1..] == word[1..] + " " + rest;
      assert [word[0]] + word[1..] == word;
      assert ([word[1..]] + Split(rest))[1..] == Split(rest);
    }
  }

  /** The words of the port cell: each port number, then the words of its service. */
  function Words(ports: seq<Port>): seq<string> {
    if ports == [] then [] else [Decimal(ports[0].port)] + Split(ports[0].service) + Words(ports[1..])
  }

  lemma LongerConcat(c: char, a: seq<string>, b: seq<string>)
    requires a != []
    ensures Longer(c, a + b) == Longer(c, a) + b
  {
    assert (a + b)[1..] == a[1..] + b;
  }

  lemma {:induction false} SplitConcat(left: string, right: string)
    ensures Split(left + " " + right) == Split(left) + Split(right)
  {
    hide Longer;
    if left == "" {
      assert (left + " " + right)[1..] == right;
      assert Longer(' ', Split(right)) == [""] + Split(right) by { LeadingSpace(Split(right)); }
    } else {
      SplitConcat(left[1..], right);
      assert (left + " " + right)[1..] == left[1..] + " " + right;
      LongerConcat(left[0], Split(left[1..]), Split(right));
    }
  }

  lemma LeadingSpace(words: seq<string>)
    requires words != []
    ensures Longer(' ', words) == [""] + words
  {
  }

  /** Splitting loses nothing. */
  lemma {:induction false} JoinSplit(text: string)
    ensures Join(Split(text), " ") == text
  {
    if text != "" {
      var rest := Split(text[1..]);
      JoinSplit(text[1..]);
      var words := Split(text);
      assert words[1..] == if text[0] == ' ' then rest else rest[1..];
      assert text == [text[0]] + text[1..];
    }
  }

  lemma {:induction false} DecimalHasNoSpace(n: nat)
    ensures Decimal(n) != "" && HasNoSpace(Decimal(n))
  {
    if n >= 10 {
      DecimalHasNoSpace(n / 10);
    }
  }

  function ValueOf(digits: string): int {
    if digits == "" then 0 else 10 * ValueOf(digits[..|digits| - 1]) + (digits[|digits| - 1] as int - '0' as int)
  }

  /** The printed digits of a number mean that number. */
  lemma {:induction false} DecimalMeansItsNumber(n: nat)
    ensures ValueOf(Decimal(n)) == n
  {
    var text := Decimal(n);
    if n < 10 {
      assert text == [Digit(n)];
      assert text[..0] == "";
    } else {
      DecimalMeansItsNumber(n / 10);
      assert text[..|text| - 1] == Decimal(n / 10);
    }
  }

  lemma PortSplits(p: Port)
    ensures Split(PortText(p)) == [Decimal(p.port)] + Split(p.service)
  {
    hide Decimal;
    DecimalHasNoSpace(p.port);
    SplitFirst(Decimal(p.port), p.service);
  }

  lemma {:induction false} PortsSplitIntoWords(ports: seq<Port>)
    requires ports != []
    ensures Split(PortCell(ports)) == Words(ports)
  {
    hide Split, PortText;
    PortSplits(ports[0]);
    if |ports| == 1 {
      assert Words(ports[1..]) == [];
    } else {
      PortsSplitIntoWords(ports[1..]);
      SplitConcat(PortText(ports[0]), PortCell(ports[1..]));
      assert Map(PortText, ports)[1..] == Map(PortText, ports[1..]);
    }
  }

  lemma PortCellIsEmptyWithoutPorts(ports: seq<Port>)
    ensures PortCell(ports) == "" <==> ports == []
  {
    if ports != [] {
      DecimalHasNoSpace(ports[0].port);
    }
  }

  /** Two lists of ports print alike exactly if they are the same words: port numbers and the words of services. */
  lemma PortCellsAgree(a: seq<Port>, b: seq<Port>)
    ensures PortCell(a) == PortCell(b) <==> Words(a) == Words(b)
  {
    hide PortCell, Split;
    PortCellIsEmptyWithoutPorts(a);
    PortCellIsEmptyWithoutPorts(b);
    if a != [] && b != [] {
      PortsSplitIntoWords(a);
      PortsSplitIntoWords(b);
      JoinSplit(PortCell(a));
      JoinSplit(PortCell(b));
    }
  }

  /** Two hosts differ at most in whether an empty cell was missing or empty, and in how words group into ports. */
  predicate SameShown(a: Host, b: Host) {
    && a.ip == b.ip && a.at == b.at && Words(a.openPorts) == Words(b.openPorts)
    && a.mac.GetOr("") == b.mac.GetOr("")
    && a.vendor.GetOr("") == b.vendor.GetOr("") && a.hostname.GetOr("") == b.hostname.GetOr("")
  }

  lemma SameRecordMeansSameHost(a: Host, b: Host)
    ensures RecordOf(a) == RecordOf(b) <==> SameShown(a, b)
  {
    hide Words, Join, Map;
    PortCellsAgree(a.openPorts, b.openPorts);
    if RecordOf(a) == RecordOf(b) {
      var x, y := RecordOf(a), RecordOf(b);
      assert x[0] == y[0] && x[1] == y[1] && x[2] == y[2] && x[3] == y[3] && x[4] == y[4] && x[6] == y[6];
    }
  }

  /** Two scans, whatever texts they hold, export the same file exactly when host by host they show the same. */
  lemma SameFileMeansSameScan(a: seq<Host>, b: seq<Host>)
    ensures BuildScanCsv(a) == BuildScanCsv(b) <==>
            |a| == |b| && forall i :: 0 <= i < |a| ==> SameShown(a[i], b[i])
  {
    hide BuildScanCsv, RecordOf, SameShown;
    ScanReadsBack(a);
    ScanReadsBack(b);
    if BuildScanCsv(a) == BuildScanCsv(b) {
      assert Table(a) == Table(b);
      forall i | 0 <= i < |a|
        ensures SameShown(a[i], b[i])
      {
        assert Table(a)[i + 1] == Table(b)[i + 1];
        SameRecordMeansSameHost(a[i], b[i]);
      }
    } else if |a| == |b| && forall i :: 0 <= i < |a| ==> SameShown(a[i], b[i]) {
      forall i | 0 <= i < |a|
        ensures RecordOf(a[i]) == RecordOf(b[i])
      {
        SameRecordMeansSameHost(a[i], b[i]);
      }
      assert Table(a) == Table(b);
      SameTableSameFile(a, b);
    }
  }

  lemma SameTableSameFile(a: seq<Host>, b: seq<Host>)
    requires Table(a) == Table(b)
    ensures BuildScanCsv(a) == BuildScanCsv(b)
  {
  }

  // ---- The services a scan reports ----

  const COMMON_PORTS := [
    Port(80, "http"), Port(23, "telnet"), Port(443, "https"), Port(21, "ftp"), Port(22, "ssh"), Port(25, "smtp"),
    Port(3389, "ms-wbt-server"), Port(110, "pop3"), Port(445, "microsoft-ds"), Port(139, "netbios-ssn"),
    Port(143, "imap"), Port(53, "domain"), Port(135, "msrpc"), Port(3306, "mysql"), Port(8080, "http-proxy"),
    Port(1723, "pptp"), Port(111, "sunrpc"), Port(995, "pop3s"), Port(993, "imaps"), Port(5900, "vnc"),
    Port(515, "printer"), Port(554, "rtsp"), Port(631, "ipp"), Port(1433, "ms-sql-s"), Port(8443, "https-alt")]

  /** Every port a scan finds open is one it probed, with the service of the table. */
  predicate Scanned(host: Host) {
    forall i :: 0 <= i < |host.openPorts| ==> host.openPorts[i] in COMMON_PORTS
  }

  lemma FirstServicesAreSingleWords()
    ensures forall k :: 0 <= k < 9 ==> HasNoSpace(COMMON_PORTS[k].service)
  {
    assert HasNoSpace("http") && HasNoSpace("telnet") && HasNoSpace("https") && HasNoSpace("ftp") && HasNoSpace("ssh");
    assert HasNoSpace("smtp") && HasNoSpace("ms-wbt-server") && HasNoSpace("pop3") && HasNoSpace("microsoft-ds");
    hide HasNoSpace;
  }

  lemma MiddleServicesAreSingleWords()
    ensures forall k :: 9 <= k < 17 ==> HasNoSpace(COMMON_PORTS[k].service)
  {
    assert HasNoSpace("netbios-ssn") && HasNoSpace("imap") && HasNoSpace("domain") && HasNoSpace("msrpc");
    assert HasNoSpace("mysql") && HasNoSpace("http-proxy") && HasNoSpace("pptp") && HasNoSpace("sunrpc");
    hide HasNoSpace;
  }

  lemma LastServicesAreSingleWords()
    ensures forall k :: 17 <= k < 25 ==> HasNoSpace(COMMON_PORTS[k].service)
  {
    assert HasNoSpace("pop3s") && HasNoSpace("imaps") && HasNoSpace("vnc") && HasNoSpace("printer");
    assert HasNoSpace("rtsp") && HasNoSpace("ipp") && HasNoSpace("ms-sql-s") && HasNoSpace("https-alt");
    hide HasNoSpace;
  }

  lemma ServicesAreSingleWords(k: nat)
    requires k < |COMMON_PORTS|
    ensures HasNoSpace(COMMON_PORTS[k].service)
  {
    hide HasNoSpace;
    FirstServicesAreSingleWords();
    MiddleServicesAreSingleWords();
    LastServicesAreSingleWords();
  }

  lemma {:induction false} SingleWordsAreInjective(a: seq<Port>, b: seq<Port>)
    requires forall i :: 0 <= i < |a| ==> HasNoSpace(a[i].service)
    requires forall i :: 0 <= i < |b| ==> HasNoSpace(b[i].service)
    requires Words(a) == Words(b)
    ensures a == b
  {
    hide Split, Decimal, HasNoSpace;
    if a != [] && b != [] {
      var u, v := Words(a), Words(b);
      SplitFirst(a[0].service, "");
      SplitFirst(b[0].service, "");
      assert u == [Decimal(a[0].port), a[0].service] + Words(a[1..]);
      assert v == [Decimal(b[0].port), b[0].service] + Words(b[1..]);
      assert u[0] == v[0] && u[1] == v[1] && u[2..] == Words(a[1..]) && v[2..] == Words(b[1..]);
      DecimalMeansItsNumber(a[0].port);
      DecimalMeansItsNumber(b[0].port);
      SingleWordsAreInjective(a[1..], b[1..]);
      assert a == [a[0]] + a[1..] && b == [b[0]] + b[1..];
    }
  }

  lemma ScannedServicesAreSingleWords(host: Host)
    requires Scanned(host)
    ensures forall i :: 0 <= i < |host.openPorts| ==> HasNoSpace(host.openPorts[i].service)
  {
    forall i | 0 <= i < |host.openPorts|
      ensures HasNoSpace(host.openPorts[i].service)
    {
      var k :| 0 <= k < |COMMON_PORTS| && COMMON_PORTS[k] == host.openPorts[i];
      ServicesAreSingleWords(k);
    }
  }

  /** The file of a scan determines its hosts and their open ports, missing and empty cells being one. */
  lemma ScanFileDeterminesPorts(a: seq<Host>, b: seq<Host>, i: nat)
    requires BuildScanCsv(a) == BuildScanCsv(b) && i < |a|
    requires forall k :: 0 <= k < |a| ==> Scanned(a[k])
    requires forall k :: 0 <= k < |b| ==> Scanned(b[k])
    ensures |a| == |b| && a[i].ip == b[i].ip && a[i].at == b[i].at && a[i].openPorts == b[i].openPorts
    ensures a[i].mac.GetOr("") == b[i].mac.GetOr("") && a[i].vendor.GetOr("") == b[i].vendor.GetOr("")
    ensures a[i].hostname.GetOr("") == b[i].hostname.GetOr("")
  {
    hide BuildScanCsv, Words, Scanned;
    SameFileMeansSameScan(a, b);
    assert SameShown(a[i], b[i]);
    ScannedServicesAreSingleWords(a[i]);
    ScannedServicesAreSingleWords(b[i]);
    SingleWordsAreInjective(a[i].openPorts, b[i].openPorts);
  }
}
