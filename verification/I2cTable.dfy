/** Parsing the `i2cdetect -y` table (hardware/i2c_service.py).

  The output is taken as a list of lines; the theorem is that parsing undoes the
  printing of such a table. */
module I2cTable {
  import opened Prelude
  import opened PyText

  const COLUMNS: nat := 16
  const DIGITS := "0123456789abcdef"

  function HexDigit(n: nat): char
    requires n < 16
  {
    DIGITS[n]
  }

  function HexValue(c: char): Option<int> {
    if '0' <= c <= '9' then Some(c as int - '0' as int)
    else if 'a' <= c <= 'f' then Some(c as int - 'a' as int + 10)
    else if 'A' <= c <= 'F' then Some(c as int - 'A' as int + 10)
    else None
  }

  function Hex(n: nat): string {
    if n < 16 then [HexDigit(n)] else Hex(n / 16) + [HexDigit(n % 16)]
  }

  // f"0x{value:02x}"
  function Address(value: int): string {
    "0x" + if value < 0 then "-" + Hex(-value) else if value < 16 then "0" + Hex(value) else Hex(value)
  }

  // int(label, 16) of two ASCII characters: blanks around and a sign are accepted.
  function RowValue(mark: string): Option<int>
    requires |mark| == 2
  {
    match (HexValue(mark[0]), HexValue(mark[1]))
    case (Some(hi), Some(lo)) => Some(16 * hi + lo)
    case (None, Some(lo)) =>
      if IsSpace(mark[0]) || mark[0] == '+' then Some(lo) else if mark[0] == '-' then Some(-lo) else None
    case (Some(hi), None) => if IsSpace(mark[1]) then Some(hi) else None
    case _ => None
  }

  // s[from:to] of Python, which stops at the end of s.
  function Slice(s: string, from: nat, to: nat): string
    requires from <= to
  {
    if |s| <= from then "" else if |s| < to then s[from..] else s[from..to]
  }

  predicate AddressCell(cell: string) {
    cell == "UU" || (|cell| == 2 && HexValue(cell[0]).Some? && HexValue(cell[1]).Some?)
  }

  // The two characters of a column behind the "XX: " prefix, stripped.
  function CellAt(line: string, column: nat): string {
    Strip(Slice(line, 4 + column * 3, 4 + column * 3 + 2))
  }

  // Which columns of a line show a device.
  function Hits(line: string): nat -> bool {
    (column: nat) => AddressCell(CellAt(line, column))
  }

  function RowAddresses(hits: nat -> bool, row: int, columns: nat): seq<string> {
    if columns == 0 then []
    else RowAddresses(hits, row, columns - 1) + if hits(columns - 1) then [Address(row + columns - 1)] else []
  }

  function LineAddresses(line: string): seq<string> {
    if |line| < 3 || line[2] != ':' then []
    else match RowValue(line[..2])
      case None => []
      case Some(row) => RowAddresses(Hits(line), row, COLUMNS)
  }

  // What a line function finds over all lines, in order.
  function Collected(f: string -> seq<string>, lines: seq<string>): seq<string> {
    if lines == [] then [] else Collected(f, lines[..|lines| - 1]) + f(lines[|lines| - 1])
  }

  function Scanned(lines: seq<string>): seq<string> {
    Collected(LineAddresses, lines)
  }

  // ---------------------------------------------------------------- sorted(set(x))

  predicate Less(s: string, t: string) {
    t != "" && (s == "" || s[0] < t[0] || (s[0] == t[0] && Less(s[1..], t[1..])))
  }

  function Insert(xs: seq<string>, x: string): seq<string> {
    if xs == [] then [x]
    else if x == xs[0] then xs
    else if Less(x, xs[0]) then [x] + xs
    else [xs[0]] + Insert(xs[1..], x)
  }

  function SortedSet(xs: seq<string>): seq<string> {
    if xs == [] then [] else Insert(SortedSet(xs[..|xs| - 1]), xs[|xs| - 1])
  }

  predicate Ascending(xs: seq<string>) {
    forall i :: 0 <= i < |xs| - 1 ==> Less(xs[i], xs[i + 1])
  }

  lemma {:induction false} LessTransitive(s: string, t: string, u: string)
    requires Less(s, t) && Less(t, u)
    ensures Less(s, u)
  {
    if s != "" && s[0] == t[0] == u[0] { LessTransitive(s[1..], t[1..], u[1..]); }
  }

  lemma {:induction false} LessTotal(s: string, t: string)
    ensures Less(s, t) || s == t || Less(t, s)
    ensures !(Less(s, t) && Less(t, s)) && !Less(s, s)
  {
    if s != "" && t != "" && s[0] == t[0] {
      LessTotal(s[1..], t[1..]);
      LessTotal(s[1..], s[1..]);
      assert s == [s[0]] + s[1..] && t == [t[0]] + t[1..];
    } else if s != "" {
      LessTotal(s[1..], s[1..]);
    }
  }

  lemma {:induction false} InsertAscends(xs: seq<string>, x: string)
    requires Ascending(xs)
    ensures Ascending(Insert(xs, x))
    ensures forall y :: y in Insert(xs, x) <==> y in xs || y == x
    ensures Insert(xs, x) != [] && (Insert(xs, x)[0] == x || (xs != [] && Insert(xs, x)[0] == xs[0]))
  {
    if xs != [] {
      LessTotal(x, xs[0]);
      assert Ascending(xs[1..]);
      InsertAscends(xs[1..], x);
      assert xs == [xs[0]] + xs[1..];
    }
  }

  // sorted(set(xs)): the same strings, strictly ascending, hence without duplicates.
  lemma {:induction false} SortedSetSorts(xs: seq<string>)
    ensures Ascending(SortedSet(xs)) && forall y :: y in SortedSet(xs) <==> y in xs
  {
    if xs != [] {
      SortedSetSorts(xs[..|xs| - 1]);
      InsertAscends(SortedSet(xs[..|xs| - 1]), xs[|xs| - 1]);
    }
  }

  lemma {:induction false} InsertLast(xs: seq<string>, x: string)
    requires Ascending(xs + [x])
    ensures Insert(xs, x) == xs + [x]
  {
    if xs != [] {
      AscendingFar(xs + [x], 0, |xs|);
      LessTotal(x, xs[0]);
      assert (xs + [x])[1..] == xs[1..] + [x];
      assert forall i :: 0 <= i < |xs| - 1 ==> (xs[1..] + [x])[i] == (xs + [x])[i + 1];
      assert Ascending(xs[1..] + [x]) by {
        forall i | 0 <= i < |xs| - 1 ensures Less((xs[1..] + [x])[i], (xs[1..] + [x])[i + 1]) {
          assert Less((xs + [x])[i + 1], (xs + [x])[i + 2]);
        }
      }
      InsertLast(xs[1..], x);
    }
  }

  lemma {:induction false} AscendingFar(xs: seq<string>, i: nat, j: nat)
    requires Ascending(xs) && i < j < |xs|
    ensures Less(xs[i], xs[j])
  {
    assert Less(xs[j - 1], xs[j - 1 + 1]);
    if i < j - 1 {
      AscendingFar(xs, i, j - 1);
      LessTransitive(xs[i], xs[j - 1], xs[j]);
    }
  }

  lemma {:induction false} SortedSetOfAscending(xs: seq<string>)
    requires Ascending(xs)
    ensures SortedSet(xs) == xs
  {
    if xs != [] {
      var front := xs[..|xs| - 1];
      assert Ascending(front) by {
        forall i | 0 <= i < |front| - 1 ensures Less(front[i], front[i + 1]) { assert Less(xs[i], xs[i + 1]); }
      }
      SortedSetOfAscending(front);
      assert xs == front + [xs[|xs| - 1]];
      InsertLast(front, xs[|xs| - 1]);
    }
  }

  // --------------------------------------------------------------------- the parser

  // The loop over the columns of one row; `hits` says which cells show a device.
  method ParseRow(hits: nat -> bool, row: int, columns: nat) returns (found: seq<string>)
    ensures found == RowAddresses(hits, row, columns)
  {
    found := [];
    for column := 0 to columns
      invariant found == RowAddresses(hits, row, column)
    {
      if hits(column) {
        found := found + [Address(row + column)];
      }
    }
  }

  method ParseI2cdetectOutput(lines: seq<string>) returns (addresses: seq<string>)
    ensures addresses == SortedSet(Scanned(lines))
    ensures Ascending(addresses) && forall a :: a in addresses <==> a in Scanned(lines)
  {
    var found := [];
    for i := 0 to |lines|
      invariant found == Scanned(lines[..i])
    {
      var line := lines[i];
      assert lines[..i + 1][..i] == lines[..i];
      if |line| >= 3 && line[2] == ':' {
        var row := RowValue(line[..2]);
        if row.Some? {
          var cells := ParseRow(Hits(line), row.value, COLUMNS);
          found := found + cells;
        }
      }
    }
    assert lines[..|lines|] == lines;
    SortedSetSorts(found);
    addresses := SortedSet(found);
  }

  // -------------------------------------------------------------------- the printer

  function Hex2(n: nat): string
    requires n < 256
  {
    [HexDigit(n / 16), HexDigit(n % 16)]
  }

  // `devices` answered, `claimed` belong to a driver, `skipped` were not probed.
  function Cell(a: nat, devices: set<nat>, claimed: set<nat>, skipped: set<nat>): string
    requires a < 256
  {
    if a in devices then (if a in claimed then "UU" else Hex2(a)) + " "
    else if a in skipped then "   " else "-- "
  }

  function CellsOf(row: nat, devices: set<nat>, claimed: set<nat>, skipped: set<nat>): seq<string>
    requires row < 8
  {
    seq(COLUMNS, c requires 0 <= c < COLUMNS => Cell(16 * row + c, devices, claimed, skipped))
  }

  function Concat(cells: seq<string>): string {
    if cells == [] then "" else Concat(cells[..|cells| - 1]) + cells[|cells| - 1]
  }

  function Row(row: nat, cells: seq<string>): string
    requires row < 8
  {
    Hex2(16 * row) + ": " + Concat(cells)
  }

  // The table: a header line and eight rows.
  function Rows(devices: set<nat>, claimed: set<nat>, skipped: set<nat>): seq<string> {
    seq(8, r requires 0 <= r < 8 => Row(r, CellsOf(r, devices, claimed, skipped)))
  }

  function Table(header: string, devices: set<nat>, claimed: set<nat>, skipped: set<nat>): seq<string> {
    [header] + Rows(devices, claimed, skipped)
  }

  // The addresses below `bound`, in numeric order, as text.
  function Listed(devices: set<nat>, bound: nat): seq<string> {
    if bound == 0 then []
    else Listed(devices, bound - 1) + if bound - 1 in devices then [Address(bound - 1)] else []
  }

  // -------------------------------------------------------------------- round trip

  lemma {:induction false} ConcatAt(cells: seq<string>, c: nat)
    requires c < |cells| && forall i :: 0 <= i < |cells| ==> |cells[i]| == 3
    ensures |Concat(cells)| == 3 * |cells| && Concat(cells)[3 * c..3 * c + 2] == cells[c][..2]
  {
    var n := |cells| - 1;
    if n > 0 {
      ConcatAt(cells[..n], if c < n then c else 0);
    }
    var front := Concat(cells[..n]);
    assert |front| == 3 * n;
    if c == n {
      assert (front + cells[n])[3 * c..3 * c + 2] == cells[n][..2];
    } else {
      assert (front + cells[n])[3 * c..3 * c + 2] == front[3 * c..3 * c + 2];
    }
  }

  lemma HexDigitValue(n: nat)
    requires n < 16
    ensures HexValue(HexDigit(n)) == Some(n) && !IsSpace(HexDigit(n))
  {}

  lemma CellIsAddress(a: nat, devices: set<nat>, claimed: set<nat>, skipped: set<nat>)
    requires a < 256
    ensures AddressCell(Strip(Cell(a, devices, claimed, skipped)[..2])) <==> a in devices
  {
    var text := Cell(a, devices, claimed, skipped)[..2];
    if a in devices {
      HexDigitValue(a / 16);
      HexDigitValue(a % 16);
      assert Stripped(text);
      StripStrips(text);
    } else if a in skipped {
      assert text == "  ";
      assert StripLeft("  ") == StripLeft(" ") == "" by { assert "  "[1..] == " " && " "[1..] == ""; }
    } else {
      assert text == "--" && Stripped(text);
      StripStrips(text);
    }
  }

  lemma {:induction false} RowPrefix(hits: nat -> bool, row: nat, columns: nat, devices: set<nat>)
    requires forall c :: 0 <= c < columns ==> (hits(c) <==> row + c in devices)
    ensures Listed(devices, row) + RowAddresses(hits, row, columns) == Listed(devices, row + columns)
  {
    if columns > 0 {
      RowPrefix(hits, row, columns - 1, devices);
      assert hits(columns - 1) <==> row + (columns - 1) in devices;
    }
  }

  lemma RowValueOfHex2(row: nat)
    requires row < 8
    ensures RowValue(Hex2(16 * row)) == Some(16 * row)
  {
    HexDigitValue(row);
    HexDigitValue(0);
  }

  ghost predicate Shows(cell: string, a: nat, devices: set<nat>) {
    |cell| == 3 && (AddressCell(Strip(cell[..2])) <==> a in devices)
  }

  // Sixteen cells, a device showing in those of its addresses.
  ghost predicate ShowCells(cells: seq<string>, row: nat, devices: set<nat>) {
    |cells| == COLUMNS && forall c :: 0 <= c < COLUMNS ==> Shows(cells[c], row + c, devices)
  }

  lemma PrintedCells(row: nat, devices: set<nat>, claimed: set<nat>, skipped: set<nat>)
    requires row < 8
    ensures ShowCells(CellsOf(row, devices, claimed, skipped), 16 * row, devices)
  {
    var cells := CellsOf(row, devices, claimed, skipped);
    forall c | 0 <= c < COLUMNS
      ensures Shows(cells[c], 16 * row + c, devices)
    {
      CellIsAddress(16 * row + c, devices, claimed, skipped);
    }
  }

  lemma CellText(line: string, row: nat, cells: seq<string>, c: nat)
    requires row < 8 && line == Row(row, cells) && c < |cells| && forall i :: 0 <= i < |cells| ==> |cells[i]| == 3
    ensures CellAt(line, c) == Strip(cells[c][..2])
  {
    ConcatAt(cells, c);
    assert line == Hex2(16 * row) + ": " + Concat(cells);
    assert line[4 + c * 3..4 + c * 3 + 2] == Concat(cells)[3 * c..3 * c + 2];
  }

  lemma RowCell(line: string, row: nat, cells: seq<string>, c: nat, devices: set<nat>)
    requires row < 8 && line == Row(row, cells) && ShowCells(cells, 16 * row, devices) && c < COLUMNS
    ensures Hits(line)(c) <==> 16 * row + c in devices
  {
    assert Shows(cells[c], 16 * row + c, devices);
    CellText(line, row, cells, c);
  }

  lemma PrintedHead(line: string, row: nat, cells: seq<string>)
    requires row < 8 && line == Row(row, cells) && |Concat(cells)| > 0
    ensures LineAddresses(line) == RowAddresses(Hits(line), 16 * row, COLUMNS)
  {
    RowValueOfHex2(row);
    assert line[..2] == Hex2(16 * row);
  }

  ghost predicate ShowHits(hits: nat -> bool, row: nat, devices: set<nat>) {
    forall c :: 0 <= c < COLUMNS ==> (hits(c) <==> row + c in devices)
  }

  // What was found is the row of `devices` starting at address `row`.
  ghost predicate Reads(found: seq<string>, row: nat, devices: set<nat>) {
    exists hits: nat -> bool :: ShowHits(hits, row, devices) && found == RowAddresses(hits, row, COLUMNS)
  }

  lemma PrintedHits(line: string, row: nat, cells: seq<string>, devices: set<nat>)
    requires row < 8 && line == Row(row, cells) && ShowCells(cells, 16 * row, devices)
    ensures ShowHits(Hits(line), 16 * row, devices)
  {
    forall c: nat | c < COLUMNS ensures Hits(line)(c) <==> 16 * row + c in devices {
      RowCell(line, row, cells, c, devices);
    }
  }

  lemma ReadsBy(found: seq<string>, hits: nat -> bool, row: nat, devices: set<nat>)
    requires ShowHits(hits, row, devices) && found == RowAddresses(hits, row, COLUMNS)
    ensures Reads(found, row, devices)
  {}

  lemma CellsRead(line: string, row: nat, cells: seq<string>, devices: set<nat>)
    requires row < 8 && line == Row(row, cells) && ShowCells(cells, 16 * row, devices) && |Concat(cells)| > 0
    ensures Reads(LineAddresses(line), 16 * row, devices)
  {
    PrintedHits(line, row, cells, devices);
    PrintedHead(line, row, cells);
    ReadsBy(LineAddresses(line), Hits(line), 16 * row, devices);
  }

  lemma PrintedRowReads(row: nat, devices: set<nat>, claimed: set<nat>, skipped: set<nat>)
    requires row < 8
    ensures Reads(LineAddresses(Row(row, CellsOf(row, devices, claimed, skipped))), 16 * row, devices)
  {
    var cells := CellsOf(row, devices, claimed, skipped);
    PrintedCells(row, devices, claimed, skipped);
    ConcatAt(cells, 0);
    CellsRead(Row(row, cells), row, cells, devices);
  }

  lemma RowIsNext(found: seq<string>, row: nat, devices: set<nat>)
    requires Reads(found, row, devices)
    ensures Listed(devices, row) + found == Listed(devices, row + COLUMNS)
  {
    var hits: nat -> bool :| ShowHits(hits, row, devices) && found == RowAddresses(hits, row, COLUMNS);
    RowPrefix(hits, row, COLUMNS, devices);
  }

  // If each row takes the addresses seen from `seen(r)` to `seen(r + 1)`, the rows
  // together collect them all.
  lemma {:induction false} RowsCollect(f: string -> seq<string>, header: string, rows: seq<string>, n: nat,
                                       seen: nat -> seq<string>)
    requires n <= |rows| && f(header) == [] && seen(0) == []
    requires forall r: nat :: r < n ==> seen(r) + f(rows[r]) == seen(r + 1)
    ensures Collected(f, [header] + rows[..n]) == seen(n)
  {
    var lines := [header] + rows[..n];
    if n == 0 {
      assert lines[..0] == [];
    } else {
      RowsCollect(f, header, rows, n - 1, seen);
      assert lines[..n] == [header] + rows[..n - 1] && lines[n] == rows[n - 1];
    }
  }

  // For 7-bit addresses text order is numeric order.
  lemma AddressOrder(a: nat, b: nat)
    requires a < b < 128
    ensures Less(Address(a), Address(b))
  {
    AddressDigits(a);
    AddressDigits(b);
    DigitsOrder(a, b);
    LessPrefix('x', Hex2(a), Hex2(b));
    LessPrefix('0', "x" + Hex2(a), "x" + Hex2(b));
    assert "0x" + Hex2(a) == ['0'] + ("x" + Hex2(a)) && "0x" + Hex2(b) == ['0'] + ("x" + Hex2(b));
  }

  lemma LessPrefix(c: char, s: string, t: string)
    requires Less(s, t)
    ensures Less([c] + s, [c] + t)
  {
    assert ([c] + s)[1..] == s && ([c] + t)[1..] == t;
  }

  lemma DigitsOrder(a: nat, b: nat)
    requires a < b < 256
    ensures Less(Hex2(a), Hex2(b))
  {
    assert Hex2(a)[1..] == [HexDigit(a % 16)] && Hex2(b)[1..] == [HexDigit(b % 16)];
    DigitOrder(a / 16, b / 16);
    DigitOrder(a % 16, b % 16);
  }

  lemma DigitOrder(m: nat, n: nat)
    requires m < 16 && n < 16
    ensures m < n ==> HexDigit(m) < HexDigit(n)
  {}

  lemma AddressDigits(a: nat)
    requires a < 128
    ensures Address(a) == "0x" + Hex2(a)
  {
    if a >= 16 { assert Hex(a) == Hex(a / 16) + [HexDigit(a % 16)]; }
  }

  lemma {:induction false} ListedAscends(devices: set<nat>, bound: nat)
    requires bound <= 128
    ensures Ascending(Listed(devices, bound))
    ensures Listed(devices, bound) != [] ==>
              exists a: nat :: a < bound && Listed(devices, bound)[|Listed(devices, bound)| - 1] == Address(a)
  {
    if bound > 0 {
      ListedAscends(devices, bound - 1);
      var front := Listed(devices, bound - 1);
      if bound - 1 in devices && front != [] {
        var a: nat :| a < bound - 1 && front[|front| - 1] == Address(a);
        AddressOrder(a, bound - 1);
        AscendingAppend(front, Address(bound - 1));
      }
    }
  }

  lemma {:induction false} ListedIsExact(devices: set<nat>, bound: nat)
    ensures forall s :: s in Listed(devices, bound) <==> exists a: nat :: a < bound && a in devices && s == Address(a)
  {
    if bound > 0 { ListedIsExact(devices, bound - 1); }
  }

  lemma AscendingAppend(xs: seq<string>, x: string)
    requires Ascending(xs) && xs != [] && Less(xs[|xs| - 1], x)
    ensures Ascending(xs + [x])
  {
    forall i | 0 <= i < |xs| ensures Less((xs + [x])[i], (xs + [x])[i + 1]) {
      if i < |xs| - 1 { assert Less(xs[i], xs[i + 1]); }
    }
  }

  lemma RowsList(f: string -> seq<string>, header: string, rows: seq<string>, devices: set<nat>)
    requires |rows| == 8 && f(header) == [] && forall r: nat :: r < 8 ==> Reads(f(rows[r]), COLUMNS * r, devices)
    ensures Collected(f, [header] + rows) == Listed(devices, 128)
  {
    var seen := (r: nat) => Listed(devices, COLUMNS * r);
    forall r: nat | r < 8 ensures seen(r) + f(rows[r]) == seen(r + 1) {
      RowIsNext(f(rows[r]), COLUMNS * r, devices);
    }
    RowsCollect(f, header, rows, 8, seen);
    assert rows[..8] == rows;
  }

  // Parsing undoes printing: whatever subset is shown as UU and whichever other
  // cells are blank, the parsed list is the 7-bit addresses of the table, each
  // once, in numeric order.
  lemma ParsePrintedTable(header: string, devices: set<nat>, claimed: set<nat>, skipped: set<nat>)
    requires |header| < 3 || header[2] != ':'
    ensures SortedSet(Scanned(Table(header, devices, claimed, skipped))) == Listed(devices, 128)
    ensures Ascending(Listed(devices, 128))
  {
    var rows := Rows(devices, claimed, skipped);
    forall r: nat | r < 8 ensures Reads(LineAddresses(rows[r]), COLUMNS * r, devices) {
      PrintedRowReads(r, devices, claimed, skipped);
    }
    RowsList(LineAddresses, header, rows, devices);
    ListedAscends(devices, 128);
    SortedSetOfAscending(Listed(devices, 128));
  }
}
