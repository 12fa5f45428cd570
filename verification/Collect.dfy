/** Turning the rows of a query into a bounded page. */
module Collect {
  import opened Wrappers
  import opened Database
  import opened Utf8
  import opened Encoding
  import Text

  const MAX_COLUMNS := 1024
  const MAX_VALUE_BYTES := 0x1_0000
  const MAX_RESULT_BYTES := 0x80_0000
  const TRUNCATED := "Values truncated to 64 KiB of source bytes."

  datatype CollectError = TooManyColumns | TooLarge | ReadFailed | MultipleResultSets

  type Cell = Option<string>

  /** What a query delivers: rows in order, then possibly a failure or another result set. */
  datatype Source = Source(columns: seq<string>, types: seq<string>, rows: seq<seq<Cell>>, failed: bool, another: bool)

  ghost predicate WellFormed(src: Source) {
    forall i :: 0 <= i < |src.rows| ==> |src.rows[i]| == |src.types|
  }

  predicate BinaryType(kind: string) {
    Text.Upper(kind) in {"BINARY", "VARBINARY", "TINYBLOB", "BLOB", "MEDIUMBLOB", "LONGBLOB", "BIT", "GEOMETRY"}
  }

  function HexDigit(n: nat): char
    requires n < 16
  {
    "0123456789abcdef"[n]
  }

  function Hex(s: string): (h: string)
    ensures |h| == 2 * |s|
  {
    if s == "" then "" else [HexDigit(s[0] as int / 16 % 16), HexDigit(s[0] as int % 16)] + Hex(s[1..])
  }

  /** What a hexadecimal digit stands for. */
  function DigitValue(c: char): int {
    if '0' <= c <= '9' then c as int - '0' as int else if 'a' <= c <= 'f' then c as int - 'a' as int + 10 else -1
  }

  function Unhex(h: string): seq<int> {
    if |h| < 2 then [] else [DigitValue(h[0]) * 16 + DigitValue(h[1])] + Unhex(h[2..])
  }

  function Bytes(s: string): seq<int> { seq(|s|, i requires 0 <= i < |s| => s[i] as int % 256) }

  /** Reading the digits back gives the bytes. */
  lemma {:induction false} HexRoundTrip(s: string)
    ensures Unhex(Hex(s)) == Bytes(s)
  {
    if s == "" {
      assert Unhex(Hex(s)) == [];
    } else {
      hide HexDigit, DigitValue, Hex, Unhex;
      HexRoundTrip(s[1..]);
      var b := s[0] as int;
      DigitsRoundTrip(b / 16 % 16);
      DigitsRoundTrip(b % 16);
      UnhexFirst(HexDigit(b / 16 % 16), HexDigit(b % 16), Hex(s[1..]));
      HexFirst(s);
      TwoDigits(b);
      assert Bytes(s) == [s[0] as int % 256] + Bytes(s[1..]);
    }
  }

  lemma HexFirst(s: string)
    requires s != ""
    ensures Hex(s) == [HexDigit(s[0] as int / 16 % 16), HexDigit(s[0] as int % 16)] + Hex(s[1..])
  {
  }

  lemma TwoDigits(b: nat)
    ensures b / 16 % 16 * 16 + b % 16 == b % 256
  {
  }

  lemma UnhexFirst(c: char, d: char, h: string)
    ensures Unhex([c, d] + h) == [DigitValue(c) * 16 + DigitValue(d)] + Unhex(h)
  {
    assert ([c, d] + h)[2..] == h;
  }

  lemma DigitsRoundTrip(n: nat)
    requires n < 16
    ensures DigitValue(HexDigit(n)) == n
  {
    assert HexDigit(n) == if n < 10 then (n + '0' as int) as char else (n - 10 + 'a' as int) as char;
  }

  /** The driver's names of the binary types, in any case. */
  lemma BinaryTypesAreTheEight(kind: string)
    ensures BinaryType(kind) <==>
            || SameButCase(kind, "BINARY") || SameButCase(kind, "VARBINARY")
            || SameButCase(kind, "TINYBLOB") || SameButCase(kind, "BLOB")
            || SameButCase(kind, "MEDIUMBLOB") || SameButCase(kind, "LONGBLOB")
            || SameButCase(kind, "BIT") || SameButCase(kind, "GEOMETRY")
  {
    hide Text.Upper, SameButCase;
    Text.FoldsTo(kind, "BINARY");
    Text.FoldsTo(kind, "VARBINARY");
    Text.FoldsTo(kind, "TINYBLOB");
    Text.FoldsTo(kind, "BLOB");
    Text.FoldsTo(kind, "MEDIUMBLOB");
    Text.FoldsTo(kind, "LONGBLOB");
    Text.FoldsTo(kind, "BIT");
    Text.FoldsTo(kind, "GEOMETRY");
  }

  function ValueOf(b: Cell, kind: string): Value {
    if b.None? then Value("", true, false, false)
    else
      var s, long := b.value, |b.value| > MAX_VALUE_BYTES;
      if BinaryType(kind) || !Valid(s)
      then Value("0x" + Hex(if long then s[..MAX_VALUE_BYTES] else s), false, true, long)
      else Value(if long then s[..LastStart(s, MAX_VALUE_BYTES)] else s, false, false, long)
  }

  /**
   Text values keep the longest valid prefix of at most 64 KiB, losing no more than three
   further bytes; everything else that is not NULL is shown in hexadecimal.
   */
  method ReadValue(b: Cell, kind: string) returns (v: Value)
    ensures v == ValueOf(b, kind)
    ensures v.isNull <==> b.None?
    ensures v.truncated <==> b.Some? && |b.value| > 65536
    ensures v.binary <==> b.Some? && (BinaryType(kind) || !Valid(b.value))
    ensures v.binary ==>
              v.text[..2] == "0x" && Unhex(v.text[2..]) == Bytes(if v.truncated then b.value[..65536] else b.value)
    ensures !v.isNull && !v.binary ==>
              && v.text <= b.value && Valid(v.text)
              && (if v.truncated then MAX_VALUE_BYTES - 3 <= |v.text| <= MAX_VALUE_BYTES < |b.value|
                  else v.text == b.value)
              && forall k :: |v.text| < k <= MAX_VALUE_BYTES && k <= |b.value| ==> !Valid(b.value[..k])
  {
    if b.None? { return Value("", true, false, false); }
    var s := b.value;
    var binary := BinaryType(kind);
    if !Valid(s) {
      binary := true;
    }
    var truncated := |s| > MAX_VALUE_BYTES;
    if truncated {
      if binary {
        s := s[..MAX_VALUE_BYTES];
      } else {
        s := ShrinkUntilValid(s, MAX_VALUE_BYTES);
      }
    }
    if binary {
      HexRoundTrip(s);
      assert ("0x" + Hex(s))[2..] == Hex(s);
      return Value("0x" + Hex(s), false, true, truncated);
    }
    return Value(s, false, false, truncated);
  }

  function RowValues(row: seq<Cell>, types: seq<string>): seq<Value>
    requires |row| == |types|
  {
    seq(|row|, i requires 0 <= i < |row| => ValueOf(row[i], types[i]))
  }

  function Rows(rows: seq<seq<Cell>>, types: seq<string>): seq<seq<Value>>
    requires forall i :: 0 <= i < |rows| ==> |rows[i]| == |types|
  {
    seq(|rows|, i requires 0 <= i < |rows| => RowValues(rows[i], types))
  }

  function RowBytes(row: seq<Value>): nat {
    if row == [] then 0 else RowBytes(row[..|row| - 1]) + |row[|row| - 1].text|
  }

  function PageBytes(rows: seq<seq<Value>>): nat {
    if rows == [] then 0 else PageBytes(rows[..|rows| - 1]) + RowBytes(rows[|rows| - 1])
  }

  predicate AnyTruncated(rows: seq<seq<Value>>) {
    exists i, j :: 0 <= i < |rows| && 0 <= j < |rows[i]| && rows[i][j].truncated
  }

  /** The rows that a page can hold. */
  function Kept(src: Source, limit: nat): seq<seq<Cell>> {
    if |src.rows| <= limit then src.rows else src.rows[..limit]
  }

  function Collected(src: Source, limit: nat): Result<Page, CollectError>
    requires forall i :: 0 <= i < |src.rows| ==> |src.rows[i]| == |src.types|
  {
    var rows := Rows(Kept(src, limit), src.types);
    var more := |src.rows| > limit;
    if |src.columns| > MAX_COLUMNS then Err(TooManyColumns)
    else if PageBytes(rows) > MAX_RESULT_BYTES then Err(TooLarge)
    else if !more && src.failed then Err(ReadFailed)
    else if !more && src.another then Err(MultipleResultSets)
    else Ok(Page(src.columns, rows, more, if AnyTruncated(rows) then TRUNCATED else ""))
  }

  /**
   A collected page has the source's columns and its first rows up to the limit, says that there
   is more exactly if rows are left, and has a notice exactly if a value was cut short. It is
   refused exactly for too many columns, too many bytes, or trouble after the last row.
   */
  lemma CollectedMeans(src: Source, limit: nat)
    requires WellFormed(src)
    ensures var r := Collected(src, limit);
            && (r.Ok? ==>
                  && r.value.columns == src.columns
                  && |r.value.rows| == (if |src.rows| < limit then |src.rows| else limit)
                  && (forall i, j :: 0 <= i < |r.value.rows| && 0 <= j < |src.types| ==>
                        |r.value.rows[i]| == |src.types| && r.value.rows[i][j] == ValueOf(src.rows[i][j], src.types[j]))
                  && (r.value.hasMore <==> |src.rows| > limit)
                  && (r.value.notice != "" <==> AnyTruncated(r.value.rows)))
            && (r.Ok? <==> && |src.columns| <= 1024
                           && PageBytes(Rows(Kept(src, limit), src.types)) <= 8 * 1024 * 1024
                           && (|src.rows| > limit || (!src.failed && !src.another)))
            && (r == Err(TooManyColumns) <==> |src.columns| > 1024)
            && (r == Err(TooLarge) <==> |src.columns| <= 1024
                                        && PageBytes(Rows(Kept(src, limit), src.types)) > 8 * 1024 * 1024)
            && (r == Err(ReadFailed) ==> src.failed && |src.rows| <= limit)
            && (r == Err(MultipleResultSets) ==> src.another && !src.failed && |src.rows| <= limit)
  {
    hide PageBytes, AnyTruncated, ValueOf;
  }

  lemma {:induction false} RowBytesGrow(row: seq<Value>, k: nat)
    requires k <= |row|
    ensures RowBytes(row[..k]) <= RowBytes(row)
    decreases |row| - k
  {
    if k < |row| {
      assert row[..k + 1][..k] == row[..k];
      RowBytesGrow(row, k + 1);
    } else {
      assert row[..k] == row;
    }
  }

  lemma {:induction false} PageBytesGrow(rows: seq<seq<Value>>, k: nat)
    requires k <= |rows|
    ensures PageBytes(rows[..k]) <= PageBytes(rows)
    decreases |rows| - k
  {
    if k < |rows| {
      assert rows[..k + 1][..k] == rows[..k];
      PageBytesGrow(rows, k + 1);
    } else {
      assert rows[..k] == rows;
    }
  }

  lemma RowBytesNone()
    ensures RowBytes([]) == 0
  {
  }

  lemma RowBytesNext(row: seq<Value>, k: nat)
    requires k < |row|
    ensures RowBytes(row[..k + 1]) == RowBytes(row[..k]) + |row[k].text|
  {
    assert row[..k + 1][..k] == row[..k];
  }

  lemma PageBytesNone()
    ensures PageBytes([]) == 0 && !AnyTruncated([])
  {
  }

  lemma PageBytesNext(rows: seq<seq<Value>>, row: seq<Value>)
    ensures PageBytes(rows + [row]) == PageBytes(rows) + RowBytes(row)
  {
    assert (rows + [row])[..|rows|] == rows;
  }

  /** Reads one row, giving up as soon as the byte budget is exceeded. */
  method ReadRow(row: seq<Cell>, types: seq<string>, total0: nat)
    returns (values: seq<Value>, total: nat, truncated: bool)
    requires |row| == |types| && total0 <= MAX_RESULT_BYTES
    ensures total > MAX_RESULT_BYTES <==> total0 + RowBytes(RowValues(row, types)) > MAX_RESULT_BYTES
    ensures total <= MAX_RESULT_BYTES ==>
              && values == RowValues(row, types) && total == total0 + RowBytes(values)
              && (truncated <==> exists j :: 0 <= j < |values| && values[j].truncated)
  {
    hide ValueOf, RowBytes;
    RowBytesNone();
    values, total, truncated := [], total0, false;
    ghost var all := RowValues(row, types);
    var i := 0;
    while i < |row|
      invariant 0 <= i <= |row| && values == all[..i]
      invariant total == total0 + RowBytes(all[..i]) && total <= MAX_RESULT_BYTES
      invariant truncated <==> exists j :: 0 <= j < i && all[j].truncated
    {
      var v := ReadValue(row[i], types[i]);
      truncated := truncated || v.truncated;
      total := total + |v.text|;
      RowBytesNext(all, i);
      if total > MAX_RESULT_BYTES {
        RowBytesGrow(all, i + 1);
        return;
      }
      values := values + [v];
      i := i + 1;
    }
    assert all[..i] == all;
  }

  method CollectRows(src: Source, limit: nat) returns (r: Result<Page, CollectError>)
    requires WellFormed(src)
    ensures r == Collected(src, limit)
  {
    hide PageBytes, RowBytes, AnyTruncated, RowValues;
    PageBytesNone();
    if |src.columns| > MAX_COLUMNS { return Err(TooManyColumns); }
    var page: seq<seq<Value>>, total, notice := [], 0, "";
    ghost var all := Rows(Kept(src, limit), src.types);
    var i := 0;
    while i < |src.rows|
      invariant 0 <= i <= |src.rows| && i <= limit
      invariant page == all[..i] && total == PageBytes(page) && total <= MAX_RESULT_BYTES
      invariant notice == if AnyTruncated(page) then TRUNCATED else ""
    {
      if |page| == limit {
        assert all[..i] == all;
        return Ok(Page(src.columns, page, true, notice));
      }
      var values, sum, truncated := ReadRow(src.rows[i], src.types, total);
      assert all[i] == RowValues(src.rows[i], src.types) && all[..i + 1] == page + [all[i]];
      PageBytesNext(page, all[i]);
      if sum > MAX_RESULT_BYTES {
        PageBytesGrow(all, i + 1);
        return Err(TooLarge);
      }
      TruncationNoticed(page, values);
      if truncated {
        notice := TRUNCATED;
      }
      page, total := page + [values], sum;
      i := i + 1;
    }
    assert all[..i] == all;
    if src.failed { return Err(ReadFailed); }
    if src.another { return Err(MultipleResultSets); }
    return Ok(Page(src.columns, page, false, notice));
  }

  lemma TruncationNoticed(page: seq<seq<Value>>, values: seq<Value>)
    ensures AnyTruncated(page + [values]) <==>
            AnyTruncated(page) || exists j :: 0 <= j < |values| && values[j].truncated
  {
    var more: seq<seq<Value>> := page + [values];
    if AnyTruncated(page) {
      var i, j :| 0 <= i < |page| && 0 <= j < |page[i]| && page[i][j].truncated;
      assert more[i][j].truncated;
    }
    if j :| 0 <= j < |values| && values[j].truncated {
      assert more[|page|][j].truncated;
    }
  }
}
