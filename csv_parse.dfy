/** `parseCSV` of the `sw-data-csv` component: the first line names the
    columns, every further line becomes an object keyed by those names, and
    only objects with a customer id, a SKU and a price are kept. Fields are
    split on every comma; the quoting rules of section 2 of RFC 4180 are not
    implemented. */
module CsvParse {
  import opened Text

  /** A parsed line: column name -> trimmed field. */
  type Row = map<string, string>

  const CustomerIdColumn: string := "Customer ID"
  const SkuColumn: string := "SKU"
  const PriceColumn: string := "Custom WS Price"

  /** `values[index] ? values[index].trim() : ""` */
  function Field(values: seq<string>, i: nat): string
  {
    if i < |values| && values[i] != "" then Trim(values[i]) else ""
  }

  /** Header i is the last header with its name among the first n. */
  predicate LastAt(headers: seq<string>, n: nat, i: nat)
    requires i < n <= |headers|
  {
    forall j :: i < j < n ==> headers[j] != headers[i]
  }

  /** The distinct header names. */
  function Names(headers: seq<string>): set<string>
  {
    set h | h in headers
  }

  /** The object `headers.reduce` has built after its first n steps. */
  function Reduce(headers: seq<string>, values: seq<string>, n: nat): Row
    requires n <= |headers|
  {
    if n == 0 then map[]
    else Reduce(headers, values, n - 1)[headers[n - 1] := Field(values, n - 1)]
  }

  /** Every header name among the first n is a key, and nothing else is. */
  lemma {:induction false} ReduceKeys(headers: seq<string>, values: seq<string>, n: nat)
    requires n <= |headers|
    ensures Reduce(headers, values, n).Keys == Names(headers[..n])
  {
    if n > 0 {
      ReduceKeys(headers, values, n - 1);
      assert headers[..n] == headers[..n - 1] + [headers[n - 1]];
    }
  }

  /** A name's value is the field at the last position that carries it. */
  lemma {:induction false} ReduceLast(headers: seq<string>, values: seq<string>, n: nat, i: nat)
    requires i < n <= |headers| && LastAt(headers, n, i)
    ensures headers[i] in Reduce(headers, values, n) && Reduce(headers, values, n)[headers[i]] == Field(values, i)
  {
    if i == n - 1 {
      ReduceTop(headers, values, n);
    } else {
      assert headers[n - 1] != headers[i];
      assert LastAt(headers, n - 1, i);
      ReduceLast(headers, values, n - 1, i);
      ReduceSkip(headers, values, n, headers[i]);
    }
  }

  /** Step n sets the n-th header's name to the n-th field. */
  lemma ReduceTop(headers: seq<string>, values: seq<string>, n: nat)
    requires 0 < n <= |headers|
    ensures headers[n - 1] in Reduce(headers, values, n)
    ensures Reduce(headers, values, n)[headers[n - 1]] == Field(values, n - 1)
  {
  }

  /** Step n leaves every other name as it was. */
  lemma ReduceSkip(headers: seq<string>, values: seq<string>, n: nat, h: string)
    requires 0 < n <= |headers| && h != headers[n - 1] && h in Reduce(headers, values, n - 1)
    ensures h in Reduce(headers, values, n)
    ensures Reduce(headers, values, n)[h] == Reduce(headers, values, n - 1)[h]
  {
  }

  /** The object for one data line under the given header names. */
  function RowOf(headers: seq<string>, line: string): (row: Row)
    ensures row.Keys == Names(headers)
  {
    ReduceKeys(headers, Split(line, ','), |headers|);
    assert headers[..|headers|] == headers;
    Reduce(headers, Split(line, ','), |headers|)
  }

  function TrimAll(xs: seq<string>): (r: seq<string>)
    ensures |r| == |xs| && forall i :: 0 <= i < |xs| ==> r[i] == Trim(xs[i])
  {
    if xs == [] then [] else [Trim(xs[0])] + TrimAll(xs[1..])
  }

  /** The trimmed names of the first line. */
  function Headers(csv: string): seq<string>
  {
    TrimAll(Split(Split(csv, '\n')[0], ','))
  }

  /** `lines.map(...)`: the object of each line under the header names. */
  function RowsOf(headers: seq<string>, lines: seq<string>): (rows: seq<Row>)
    ensures |rows| == |lines|
    ensures forall k :: 0 <= k < |rows| ==> rows[k].Keys == Names(headers)
  {
    seq(|lines|, k requires 0 <= k < |lines| => RowOf(headers, lines[k]))
  }

  /** Object k is that of line k. */
  lemma RowsOfAt(headers: seq<string>, lines: seq<string>, k: nat)
    requires k < |lines|
    ensures RowsOf(headers, lines)[k] == RowOf(headers, lines[k])
  {
  }

  /** One more line gives one more object, at the end. */
  lemma RowsOfAppend(headers: seq<string>, lines: seq<string>, line: string)
    ensures RowsOf(headers, lines + [line]) == RowsOf(headers, lines) + [RowOf(headers, line)]
  {
    var r, r' := RowsOf(headers, lines), RowsOf(headers, lines + [line]);
    forall k | 0 <= k < |r'| ensures r'[k] == (r + [RowOf(headers, line)])[k] {
      RowsOfAt(headers, lines + [line], k);
      if k < |lines| {
        RowsOfAt(headers, lines, k);
      }
    }
  }

  /** One object per line after the first, in order. */
  function DataRows(csv: string): (rows: seq<Row>)
    ensures |rows| == |Split(csv, '\n')| - 1
  {
    RowsOf(Headers(csv), Split(csv, '\n')[1..])
  }

  /** Every line object is keyed by the header names. */
  lemma DataRowsKeys(csv: string)
    ensures forall k :: 0 <= k < |DataRows(csv)| ==> DataRows(csv)[k].Keys == Names(Headers(csv))
  {
  }

  /** The filter of `parseCSV`: all three required fields present and not empty. */
  predicate Complete(row: Row)
  {
    && CustomerIdColumn in row && row[CustomerIdColumn] != ""
    && SkuColumn in row && row[SkuColumn] != ""
    && PriceColumn in row && row[PriceColumn] != ""
  }

  /** `a` occurs in `b` in order, possibly with gaps. */
  predicate IsSubsequence<T(==)>(a: seq<T>, b: seq<T>)
    decreases |b|
  {
    if a == [] then true
    else if b == [] then false
    else if a[0] == b[0] then IsSubsequence(a[1..], b[1..])
    else IsSubsequence(a, b[1..])
  }

  /** `rows.filter(Complete)`. */
  function Keep(rows: seq<Row>): (r: seq<Row>)
    ensures |r| <= |rows|
    ensures forall i :: 0 <= i < |r| ==> Complete(r[i])
  {
    if rows == [] then []
    else if Complete(rows[0]) then [rows[0]] + Keep(rows[1..])
    else Keep(rows[1..])
  }

  /** The filter keeps the complete rows, every one of them, in order. */
  lemma {:induction false} KeepExact(rows: seq<Row>)
    ensures IsSubsequence(Keep(rows), rows)
    ensures forall x :: multiset(Keep(rows))[x] == if Complete(x) then multiset(rows)[x] else 0
  {
    if rows != [] {
      KeepExact(rows[1..]);
      var rest := Keep(rows[1..]);
      assert rows == [rows[0]] + rows[1..];
      if !Complete(rows[0]) && rest != [] {
        assert rest[0] != rows[0];
      }
    }
  }

  /** `parseCSV(csvData)`: the complete objects among those of the lines
      after the first. */
  function ParseCsv(csv: string): (rows: seq<Row>)
    ensures |rows| <= |Split(csv, '\n')| - 1
    ensures forall i :: 0 <= i < |rows| ==> Complete(rows[i])
  {
    Keep(DataRows(csv))
  }

  /** Its rows come from the lines after the first, in their order, and are
      exactly the complete ones; each has the header names as keys. */
  lemma ParseCsvRows(csv: string)
    ensures IsSubsequence(ParseCsv(csv), DataRows(csv))
    ensures forall x :: multiset(ParseCsv(csv))[x] == if Complete(x) then multiset(DataRows(csv))[x] else 0
    ensures forall i :: 0 <= i < |ParseCsv(csv)| ==> ParseCsv(csv)[i].Keys == Names(Headers(csv))
  {
    KeepExact(DataRows(csv));
    DataRowsKeys(csv);
    KeepKeys(DataRows(csv), Names(Headers(csv)));
  }

  /** The filter keeps only rows it was given, so a key set they all share
      is shared by what it keeps. */
  lemma {:induction false} KeepKeys(rows: seq<Row>, keys: set<string>)
    requires forall k :: 0 <= k < |rows| ==> rows[k].Keys == keys
    ensures forall i :: 0 <= i < |Keep(rows)| ==> Keep(rows)[i].Keys == keys
  {
    if rows != [] {
      KeepKeys(rows[1..], keys);
    }
  }

  /** A field beyond the last value is "", and a value beyond the last
      header is never read. */
  lemma {:induction false} ReduceReadsOnlyHeaders(headers: seq<string>, values: seq<string>, extra: seq<string>, n: nat)
    requires n <= |headers| <= |values|
    ensures Reduce(headers, values + extra, n) == Reduce(headers, values, n)
  {
    if n > 0 {
      ReduceReadsOnlyHeaders(headers, values, extra, n - 1);
      assert Field(values + extra, n - 1) == Field(values, n - 1);
    }
  }

  /** Fields after the last header are ignored: appending more fields to a
      line that already has one per header changes nothing. */
  lemma ExtraFieldsIgnored(headers: seq<string>, line: string, more: string)
    requires |Split(line, ',')| >= |headers|
    ensures RowOf(headers, line + "," + more) == RowOf(headers, line)
  {
    SplitAround(line, more, ',');
    assert line + "," + more == line + [','] + more;
    ReduceReadsOnlyHeaders(headers, Split(line, ','), Split(more, ','), |headers|);
  }

  /** Every value built from the single empty field is "". */
  lemma {:induction false} ReduceOfEmptyLine(headers: seq<string>, n: nat)
    requires n <= |headers|
    ensures forall h :: h in Reduce(headers, [""], n) ==> Reduce(headers, [""], n)[h] == ""
  {
    if n > 0 {
      ReduceOfEmptyLine(headers, n - 1);
    }
  }

  /** An empty line gives an object whose every value is "", so it is dropped. */
  lemma EmptyLineIsIncomplete(headers: seq<string>)
    ensures !Complete(RowOf(headers, ""))
  {
    assert Split("", ',') == [""];
    ReduceOfEmptyLine(headers, |headers|);
  }

  /** Dropping an incomplete row at the end does not change the filter. */
  lemma {:induction false} KeepDropsIncompleteLast(rows: seq<Row>, x: Row)
    requires !Complete(x)
    ensures Keep(rows + [x]) == Keep(rows)
  {
    if rows == [] {
      assert Keep([x]) == Keep([]);
    } else {
      KeepDropsIncompleteLast(rows[1..], x);
      assert (rows + [x])[1..] == rows[1..] + [x];
    }
  }

  /** A trailing newline (the usual end of a CSV file) adds no row. */
  lemma ParseCsvTrailingNewline(csv: string)
    ensures ParseCsv(csv + "\n") == ParseCsv(csv)
  {
    SplitTrailing(csv, '\n');
    var lines := Split(csv, '\n');
    var lines' := Split(csv + "\n", '\n');
    assert csv + "\n" == csv + ['\n'];
    assert lines' == lines + [""];
    assert Headers(csv + "\n") == Headers(csv);
    var data, data' := DataRows(csv), DataRows(csv + "\n");
    assert lines'[1..] == lines[1..] + [""];
    RowsOfAppend(Headers(csv), lines[1..], "");
    assert data' == data + [RowOf(Headers(csv), "")];
    EmptyLineIsIncomplete(Headers(csv));
    KeepDropsIncompleteLast(data, RowOf(Headers(csv), ""));
  }

  /** The i-th piece of a comma-joined line of comma-free cells is the i-th
      cell; a comma inside cell i instead makes two pieces, and every later
      cell moves one column to the right. */
  lemma CommaInsideFieldShifts(cells: seq<string>, i: nat, x: string, y: string)
    requires i < |cells|
    requires forall k :: 0 <= k < |cells| ==> ',' !in cells[k]
    requires ',' !in x && ',' !in y
    ensures var pieces := Split(Join(cells[..i] + [x + "," + y] + cells[i + 1..], ','), ',');
            && |pieces| == |cells| + 1
            && pieces[i] == x && pieces[i + 1] == y
            && (forall k :: 0 <= k < i ==> pieces[k] == cells[k])
            && (forall k :: i < k < |cells| ==> pieces[k + 1] == cells[k])
  {
    var before, after := cells[..i], cells[i + 1..];
    var spread := before + [x, y] + after;
    assert Join(before + [x + "," + y] + after, ',') == Join(spread, ',') by {
      JoinMiddle(before, x, y, after);
    }
    forall k | 0 <= k < |spread| ensures ',' !in spread[k] {
      if k < i { assert spread[k] == cells[k]; }
      else if k > i + 1 { assert spread[k] == cells[k - 1]; }
    }
    SplitJoin(spread, ',');
  }

  /** Joining with a piece `x,y` is joining with `x` and `y` as two pieces. */
  lemma JoinMiddle(before: seq<string>, x: string, y: string, after: seq<string>)
    ensures Join(before + [x + "," + y] + after, ',') == Join(before + [x, y] + after, ',')
  {
    var tail1, tail2 := [x + "," + y] + after, [x, y] + after;
    assert Join(tail1, ',') == Join(tail2, ',') by {
      if after == [] {
        assert Join(tail2, ',') == x + [','] + Join([y], ',');
      } else {
        JoinAppend([x + "," + y], after, ',');
        JoinAppend([x, y], after, ',');
        assert Join([x, y], ',') == x + [','] + Join([y], ',');
      }
    }
    if before != [] {
      JoinAppend(before, tail1, ',');
      JoinAppend(before, tail2, ',');
    }
    assert before + [x + "," + y] + after == before + tail1;
    assert before + [x, y] + after == before + tail2;
  }
}
