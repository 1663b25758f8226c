// The CSV files people download (packages/types/src/csv.ts), and a reader of RFC 4180, section 2.
module Csv {
  import opened Options
  import opened Texts

  datatype Format = Format(separator: char, decimal: char)

  /** The two separators and two decimal marks a format may name. */
  predicate IsFormat(format: Format)
  {
    (format.separator == ',' || format.separator == ';') && (format.decimal == '.' || format.decimal == ',')
  }

  const CSV_STANDARD := Format(',', '.')
  const CSV_EXCEL_FR := Format(';', ',')

  /** A value as text: an object as its JSON, anything else as JavaScript writes it. */
  datatype Value = Missing | Text(text: string)

  // ---- what a cell says ----

  function Unsigned(text: string): string
  {
    if text != "" && (text[0] == '+' || text[0] == '-') then text[1..] else text
  }

  predicate IsDecimalAt(s: string, k: nat)
  {
    k < |s| && s[k] == '.' && AllDigits(s[..k]) && AllDigits(s[k + 1..])
  }

  /** `PLAIN_NUMBER`: a sign or none, digits, and a point with digits or none. */
  predicate IsPlainNumber(text: string)
  {
    AllDigits(Unsigned(text)) || exists k :: 0 <= k < |Unsigned(text)| && IsDecimalAt(Unsigned(text), k)
  }

  /** `FORMULA_LEAD`. */
  predicate LeadsFormula(text: string)
  {
    text != "" && (text[0] == '=' || text[0] == '+' || text[0] == '-' || text[0] == '@' || text[0] == '\t' || text[0] == '\r')
  }

  /** `text.replace('.', ',')`: the first point. */
  function WithComma(text: string): string
  {
    if text == "" then "" else if text[0] == '.' then "," + text[1..] else [text[0]] + WithComma(text[1..])
  }

  /** What a cell of a value says to whoever reads the file. */
  function Said(value: Value, format: Format): string
  {
    match value
    case Missing => ""
    case Text(text) =>
      if format.decimal == ',' && IsPlainNumber(text) then WithComma(text)
      else if LeadsFormula(text) && !IsPlainNumber(text) then "'" + text
      else text
  }

  // ---- the writer ----

  /** `value.replace(/"/g, '""')`. */
  function DoubledQuotes(text: string): string
  {
    if text == "" then "" else (if text[0] == '"' then "\"\"" else [text[0]]) + DoubledQuotes(text[1..])
  }

  function Quoted(text: string): string
  {
    "\"" + DoubledQuotes(text) + "\""
  }

  predicate NeedsQuotes(text: string, separator: char)
  {
    '"' in text || '\n' in text || '\r' in text || separator in text
  }

  function QuotedIfNeeded(text: string, separator: char): string
  {
    if NeedsQuotes(text, separator) then Quoted(text) else text
  }

  function Neutralised(text: string, separator: char): string
  {
    if LeadsFormula(text) && !IsPlainNumber(text) then "\"'" + DoubledQuotes(text) + "\"" else QuotedIfNeeded(text, separator)
  }

  function CellOf(value: Value, format: Format): string
  {
    match value
    case Missing => ""
    case Text(text) =>
      if format.decimal == ',' && IsPlainNumber(text) then WithComma(text) else Neutralised(text, format.separator)
  }

  function Cells(values: seq<Value>, format: Format): seq<string>
  {
    if values == [] then [] else [CellOf(values[0], format)] + Cells(values[1..], format)
  }

  function CsvRow(values: seq<Value>, format: Format): string
  {
    Join(Cells(values, format), [format.separator])
  }

  function Rows(rows: seq<seq<Value>>, format: Format): seq<string>
  {
    if rows == [] then [] else [CsvRow(rows[0], format)] + Rows(rows[1..], format)
  }

  const BYTE_ORDER_MARK := "\U{FEFF}"
  const LINE_END := "\r\n"

  function CsvFile(rows: seq<seq<Value>>, format: Format): string
  {
    BYTE_ORDER_MARK + Join(Rows(rows, format), LINE_END) + LINE_END
  }

  // ---- a reader of RFC 4180, section 2 ----

  datatype Field = Field(text: string, rest: string)

  /** A quoted field after its opening quote: a doubled quote is one quote, a single one ends the field. */
  function ReadQuoted(s: string): Option<Field>
  {
    if s == "" then None
    else if s[0] == '"' && |s| > 1 && s[1] == '"' then
      match ReadQuoted(s[2..])
      case None => None
      case Some(f) => Some(Field(['"'] + f.text, f.rest))
    else if s[0] == '"' then Some(Field("", s[1..]))
    else
      match ReadQuoted(s[1..])
      case None => None
      case Some(f) => Some(Field([s[0]] + f.text, f.rest))
  }

  predicate EndsBare(c: char, separator: char)
  {
    c == separator || c == '"' || c == '\r' || c == '\n'
  }

  function ReadBare(s: string, separator: char): (f: Field)
    ensures |f.rest| <= |s|
  {
    if s == "" || EndsBare(s[0], separator) then Field("", s)
    else
      var f := ReadBare(s[1..], separator);
      Field([s[0]] + f.text, f.rest)
  }

  function ReadField(s: string, separator: char): Option<Field>
  {
    if s != "" && s[0] == '"' then ReadQuoted(s[1..]) else Some(ReadBare(s, separator))
  }

  datatype Record = Record(cells: seq<string>, rest: string)

  lemma {:induction false} QuotedIsShorter(s: string)
    ensures ReadQuoted(s).Some? ==> |ReadQuoted(s).value.rest| < |s|
  {
    if s != "" {
      if s[0] == '"' && |s| > 1 && s[1] == '"' {
        QuotedIsShorter(s[2..]);
      } else if s[0] != '"' {
        QuotedIsShorter(s[1..]);
      }
    }
  }

  lemma {:induction false} FieldIsNoLonger(s: string, separator: char)
    ensures ReadField(s, separator).Some? ==> |ReadField(s, separator).value.rest| <= |s|
  {
    if s != "" && s[0] == '"' {
      QuotedIsShorter(s[1..]);
    }
  }

  /** One record: fields with separators between them, up to a line end. */
  function ReadRecord(s: string, separator: char): (r: Option<Record>)
    ensures r.Some? ==> |r.value.rest| <= |s|
    decreases |s|
  {
    FieldIsNoLonger(s, separator);
    match ReadField(s, separator)
    case None => None
    case Some(f) =>
      if f.rest != "" && f.rest[0] == separator then
        match ReadRecord(f.rest[1..], separator)
        case None => None
        case Some(r) => Some(Record([f.text] + r.cells, r.rest))
      else Some(Record([f.text], f.rest))
  }

  /** Records, each on its own line; the last line may end the file with or without a line end. */
  function ReadRecords(s: string, separator: char): Option<seq<seq<string>>>
    decreases |s|
  {
    match ReadRecord(s, separator)
    case None => None
    case Some(r) =>
      if r.rest == "" || r.rest == LINE_END then Some([r.cells])
      else if LINE_END <= r.rest then
        match ReadRecords(r.rest[2..], separator)
        case None => None
        case Some(more) => Some([r.cells] + more)
      else None
  }

  function ReadFile(text: string, separator: char): Option<seq<seq<string>>>
  {
    if BYTE_ORDER_MARK <= text then ReadRecords(text[1..], separator) else ReadRecords(text, separator)
  }

  // ---- one cell ----

  /** What may follow a cell: nothing, a separator or a line end. */
  predicate Follows(rest: string, separator: char)
  {
    rest == "" || rest[0] == separator || rest[0] == '\r'
  }

  lemma {:induction false} QuotedReads(text: string, rest: string)
    requires rest == "" || rest[0] != '"'
    ensures ReadQuoted(DoubledQuotes(text) + ("\"" + rest)) == Some(Field(text, rest))
  {
    DoubledSplit(text, "\"" + rest);
    if text == "" {
      EndQuoteReads(rest);
    } else {
      QuotedReads(text[1..], rest);
      var tail := DoubledQuotes(text[1..]) + ("\"" + rest);
      if text[0] == '"' {
        DoubledQuoteReads(tail, text[1..], rest);
      } else {
        PlainReads(text[0], tail, text[1..], rest);
      }
      assert [text[0]] + text[1..] == text;
    }
  }

  lemma {:induction false} DoubledSplit(text: string, x: string)
    ensures text == "" ==> DoubledQuotes(text) + x == x
    ensures text != "" ==>
              DoubledQuotes(text) + x == (if text[0] == '"' then "\"\"" else [text[0]]) + (DoubledQuotes(text[1..]) + x)
  {
  }

  /** A quote that no quote follows ends the cell. */
  lemma {:induction false} EndQuoteReads(rest: string)
    requires rest == "" || rest[0] != '"'
    ensures ReadQuoted("\"" + rest) == Some(Field("", rest))
  {
    assert ("\"" + rest)[1..] == rest;
  }

  /** A doubled quote stands for one, whatever follows. */
  lemma {:induction false} DoubledQuoteReads(tail: string, said: string, rest: string)
    requires ReadQuoted(tail) == Some(Field(said, rest))
    ensures ReadQuoted("\"\"" + tail) == Some(Field(['"'] + said, rest))
  {
    assert ("\"\"" + tail)[2..] == tail;
  }

  lemma {:induction false} PlainReads(c: char, tail: string, said: string, rest: string)
    requires c != '"' && ReadQuoted(tail) == Some(Field(said, rest))
    ensures ReadQuoted([c] + tail) == Some(Field([c] + said, rest))
  {
    assert ([c] + tail)[1..] == tail;
  }

  predicate IsBare(text: string, separator: char)
  {
    forall i :: 0 <= i < |text| ==> !EndsBare(text[i], separator)
  }

  lemma {:induction false} BareReads(text: string, rest: string, separator: char)
    requires IsBare(text, separator) && Follows(rest, separator)
    ensures ReadBare(text + rest, separator) == Field(text, rest)
  {
    if text == "" {
      assert text + rest == rest;
    } else {
      BareReads(text[1..], rest, separator);
      assert (text + rest)[1..] == text[1..] + rest;
    }
  }

  /** A printed cell: quoted, or bare where that reads the same. */
  predicate Prints(printed: string, said: string, separator: char)
  {
    printed == Quoted(said) || (printed == said && IsBare(said, separator))
  }

  lemma {:induction false} PrintedReads(printed: string, said: string, rest: string, separator: char)
    requires Prints(printed, said, separator) && Follows(rest, separator) && separator != '"'
    ensures ReadField(printed + rest, separator) == Some(Field(said, rest))
  {
    if printed == Quoted(said) {
      QuotedReads(said, rest);
      assert (printed + rest)[1..] == DoubledQuotes(said) + ("\"" + rest);
    } else {
      BareReads(said, rest, separator);
      assert said != "" ==> !EndsBare(said[0], separator);
    }
  }

  /** A record is read to its line end. */
  predicate EndsRecord(rest: string)
  {
    rest == "" || rest[0] == '\r'
  }

  lemma {:induction false} RecordEnds(s: string, cells: seq<string>, separator: char)
    requires ReadRecord(s, separator) == Some(Record(cells, LINE_END))
    ensures ReadRecords(s, separator) == Some([cells])
  {
  }

  /** A printed cell with a separator behind it begins a record, and one without ends it. */
  lemma {:induction false} PrintedThenMore(printed: string, said: string, more: string, separator: char, cells: seq<string>, rest: string)
    requires Prints(printed, said, separator) && separator != '"' && ReadRecord(more, separator) == Some(Record(cells, rest))
    ensures ReadRecord(printed + [separator] + more, separator) == Some(Record([said] + cells, rest))
  {
    PrintedReads(printed, said, [separator] + more, separator);
    assert printed + [separator] + more == printed + ([separator] + more);
  }

  lemma {:induction false} PrintedEnds(printed: string, said: string, rest: string, separator: char)
    requires Prints(printed, said, separator) && separator != '"' && separator != '\r' && EndsRecord(rest)
    ensures ReadRecord(printed + rest, separator) == Some(Record([said], rest))
  {
    PrintedReads(printed, said, rest, separator);
  }

  // ---- numbers ----

  predicate IsNumeral(c: char)
  {
    IsDigit(c) || c == '+' || c == '-' || c == '.'
  }

  lemma {:induction false} PlainNumberIsOfNumerals(text: string)
    requires IsPlainNumber(text)
    ensures text != "" && forall i :: 0 <= i < |text| ==> IsNumeral(text[i])
  {
    var body := Unsigned(text);
    if !AllDigits(body) {
      var k :| 0 <= k < |body| && IsDecimalAt(body, k);
      assert body == body[..k] + [body[k]] + body[k + 1..];
      forall i | 0 <= i < |body|
        ensures IsNumeral(body[i])
      {
        if i < k {
          assert IsDigit(body[..k][i]);
        } else if i > k {
          assert IsDigit(body[k + 1..][i - k - 1]);
        }
      }
    }
    forall i | 0 <= i < |text|
      ensures IsNumeral(text[i])
    {
      if body != text && i > 0 {
        assert text[i] == body[i - 1];
      }
    }
  }

  lemma {:induction false} WithCommaIs(text: string, k: nat)
    requires k < |text| && text[k] == '.' && forall i :: 0 <= i < k ==> text[i] != '.'
    ensures WithComma(text) == text[..k] + "," + text[k + 1..]
  {
    if k > 0 {
      WithCommaIs(text[1..], k - 1);
      assert text[..k] == [text[0]] + text[1..][..k - 1];
    }
  }

  lemma {:induction false} NoPointNoComma(text: string)
    requires forall i :: 0 <= i < |text| ==> text[i] != '.'
    ensures WithComma(text) == text
  {
    if text != "" {
      NoPointNoComma(text[1..]);
    }
  }

  /** Where the first point of a number is. */
  function FirstPoint(text: string): (k: nat)
    requires '.' in text
    ensures k < |text| && text[k] == '.' && forall i :: 0 <= i < k ==> text[i] != '.'
  {
    if text[0] == '.' then 0
    else
      assert text == [text[0]] + text[1..];
      1 + FirstPoint(text[1..])
  }

  /** A number whose comma is also the separator, in a format whose two marks are one. */
  predicate Splits(value: Value, format: Format)
  {
    format.separator == format.decimal && value.Text? && IsPlainNumber(value.text) && '.' in value.text
  }

  /** What a value reads as: one cell, or the two halves of a number split at its own comma. */
  function ReadAs(value: Value, format: Format): seq<string>
  {
    if Splits(value, format) then [value.text[..FirstPoint(value.text)], value.text[FirstPoint(value.text) + 1..]]
    else [Said(value, format)]
  }

  lemma {:induction false} NumeralsAreBare(text: string, separator: char)
    requires (forall i :: 0 <= i < |text| ==> IsNumeral(text[i])) && (separator == ',' || separator == ';')
    ensures IsBare(text, separator)
  {
  }

  lemma {:induction false} WithCommaIsOfNumerals(text: string)
    requires forall i :: 0 <= i < |text| ==> IsNumeral(text[i])
    ensures forall i :: 0 <= i < |WithComma(text)| ==> IsNumeral(WithComma(text)[i]) || WithComma(text)[i] == ','
  {
    if text != "" {
      WithCommaIsOfNumerals(text[1..]);
    }
  }

  /** A plain number with its comma stands bare between semicolons. */
  lemma {:induction false} CommaNumberPrints(text: string, format: Format)
    requires IsFormat(format) && IsPlainNumber(text) && format.decimal == ',' && !Splits(Text(text), format)
    ensures Prints(WithComma(text), WithComma(text), format.separator)
  {
    PlainNumberIsOfNumerals(text);
    if '.' in text {
      WithCommaIsOfNumerals(text);
      CommaNumeralsAreBare(WithComma(text));
    } else {
      NoPointNoComma(text);
      NumeralsAreBare(text, format.separator);
    }
  }

  lemma {:induction false} CommaNumeralsAreBare(text: string)
    requires forall i :: 0 <= i < |text| ==> IsNumeral(text[i]) || text[i] == ','
    ensures IsBare(text, ';')
  {
  }

  lemma {:induction false} DoubledAfterApostrophe(text: string)
    ensures Quoted("'" + text) == "\"'" + DoubledQuotes(text) + "\""
  {
    assert ("'" + text)[0] == '\'' && ("'" + text)[1..] == text;
    assert DoubledQuotes("'" + text) == "'" + DoubledQuotes(text);
    assert "\"'" + DoubledQuotes(text) + "\"" == "\"" + ("'" + DoubledQuotes(text)) + "\"";
  }

  lemma {:induction false} QuotedIfNeededPrints(text: string, separator: char)
    ensures Prints(QuotedIfNeeded(text, separator), text, separator)
  {
  }

  lemma {:induction false} NeutralisedPrints(text: string, separator: char)
    ensures Prints(Neutralised(text, separator), if LeadsFormula(text) && !IsPlainNumber(text) then "'" + text else text, separator)
  {
    if LeadsFormula(text) && !IsPlainNumber(text) {
      DoubledAfterApostrophe(text);
    } else {
      QuotedIfNeededPrints(text, separator);
    }
  }

  lemma {:induction false} CellPrints(value: Value, format: Format)
    requires IsFormat(format) && !Splits(value, format)
    ensures Prints(CellOf(value, format), Said(value, format), format.separator)
  {
    if value.Text? {
      if format.decimal == ',' && IsPlainNumber(value.text) {
        CommaNumberPrints(value.text, format);
      } else {
        NeutralisedPrints(value.text, format.separator);
      }
    }
  }

  // ---- one row ----

  /** What the cells of a row read as. */
  function RowReadsAs(values: seq<Value>, format: Format): seq<string>
  {
    if values == [] then [] else ReadAs(values[0], format) + RowReadsAs(values[1..], format)
  }

  /** A split number is two bare halves with the separator between them. */
  lemma {:induction false} SplitPrints(value: Value, format: Format)
    requires IsFormat(format) && Splits(value, format)
    ensures
      var k := FirstPoint(value.text);
      && CellOf(value, format) == value.text[..k] + [format.separator] + value.text[k + 1..]
      && IsBare(value.text[..k], format.separator) && IsBare(value.text[k + 1..], format.separator)
  {
    var k := FirstPoint(value.text);
    PlainNumberIsOfNumerals(value.text);
    WithCommaIs(value.text, k);
    NumeralsAreBare(value.text[..k], format.separator);
    NumeralsAreBare(value.text[k + 1..], format.separator);
    assert [format.separator] == ",";
  }

  /** A cell and what comes after it, read as the first cells of a record. */
  lemma {:induction false} CellThenMore(value: Value, format: Format, more: string, cells: seq<string>, rest: string)
    requires IsFormat(format) && ReadRecord(more, format.separator) == Some(Record(cells, rest))
    ensures ReadRecord(CellOf(value, format) + [format.separator] + more, format.separator)
            == Some(Record(ReadAs(value, format) + cells, rest))
  {
    var separator := format.separator;
    if Splits(value, format) {
      SplitPrints(value, format);
      var k := FirstPoint(value.text);
      HalvesThenMore(value.text[..k], value.text[k + 1..], more, separator, cells, rest);
      assert [value.text[..k], value.text[k + 1..]] + cells == ReadAs(value, format) + cells;
    } else {
      CellPrints(value, format);
      PrintedThenMore(CellOf(value, format), Said(value, format), more, separator, cells, rest);
    }
  }

  lemma {:induction false} HalvesThenMore(head: string, tail: string, more: string, separator: char, cells: seq<string>, rest: string)
    requires IsBare(head, separator) && IsBare(tail, separator) && separator != '"'
    requires ReadRecord(more, separator) == Some(Record(cells, rest))
    ensures ReadRecord(head + [separator] + tail + [separator] + more, separator) == Some(Record([head, tail] + cells, rest))
  {
    PrintedThenMore(tail, tail, more, separator, cells, rest);
    assert head + [separator] + tail + [separator] + more == head + [separator] + (tail + [separator] + more);
    assert [head] + ([tail] + cells) == [head, tail] + cells;
    PrintedThenMore(head, head, tail + [separator] + more, separator, [tail] + cells, rest);
  }

  lemma {:induction false} HalvesEnd(head: string, tail: string, rest: string, separator: char)
    requires IsBare(head, separator) && IsBare(tail, separator) && separator != '"' && separator != '\r' && EndsRecord(rest)
    ensures ReadRecord(head + [separator] + tail + rest, separator) == Some(Record([head, tail], rest))
  {
    PrintedEnds(tail, tail, rest, separator);
    PrintedThenMore(head, head, tail + rest, separator, [tail], rest);
    assert head + [separator] + tail + rest == head + [separator] + (tail + rest);
    assert [head] + [tail] == [head, tail];
  }

  lemma {:induction false} LastCell(value: Value, format: Format, rest: string)
    requires IsFormat(format) && EndsRecord(rest)
    ensures ReadRecord(CellOf(value, format) + rest, format.separator) == Some(Record(ReadAs(value, format), rest))
  {
    if Splits(value, format) {
      SplitPrints(value, format);
      var k := FirstPoint(value.text);
      HalvesEnd(value.text[..k], value.text[k + 1..], rest, format.separator);
    } else {
      CellPrints(value, format);
      PrintedEnds(CellOf(value, format), Said(value, format), rest, format.separator);
    }
  }

  lemma {:induction false} RowUnfolds(values: seq<Value>, format: Format)
    requires values != []
    ensures CsvRow(values, format) == if |values| == 1 then CellOf(values[0], format)
                                      else CellOf(values[0], format) + [format.separator] + CsvRow(values[1..], format)
  {
    var cells := Cells(values, format);
    assert cells[1..] == Cells(values[1..], format);
    if |values| == 1 {
      assert values[1..] == [];
    } else {
      assert |Cells(values[1..], format)| > 0;
    }
  }

  lemma {:induction false} OneCellRow(values: seq<Value>, format: Format)
    requires |values| == 1
    ensures RowReadsAs(values, format) == ReadAs(values[0], format)
  {
    assert values[1..] == [];
    assert RowReadsAs(values[1..], format) == [];
  }

  lemma {:induction false} CellThenRow(value: Value, format: Format, row: string, cells: seq<string>, rest: string)
    requires IsFormat(format) && ReadRecord(row + rest, format.separator) == Some(Record(cells, rest))
    ensures ReadRecord(CellOf(value, format) + [format.separator] + row + rest, format.separator)
            == Some(Record(ReadAs(value, format) + cells, rest))
  {
    CellThenMore(value, format, row + rest, cells, rest);
    assert CellOf(value, format) + [format.separator] + row + rest == CellOf(value, format) + [format.separator] + (row + rest);
  }

  lemma {:induction false} RowReads(values: seq<Value>, format: Format, rest: string)
    requires IsFormat(format) && values != [] && EndsRecord(rest)
    ensures ReadRecord(CsvRow(values, format) + rest, format.separator) == Some(Record(RowReadsAs(values, format), rest))
  {
    RowUnfolds(values, format);
    if |values| == 1 {
      LastCell(values[0], format, rest);
      OneCellRow(values, format);
    } else {
      RowReads(values[1..], format, rest);
      CellThenRow(values[0], format, CsvRow(values[1..], format), RowReadsAs(values[1..], format), rest);
    }
  }

  lemma {:induction false} EmptyRowReads(format: Format, rest: string)
    requires IsFormat(format) && EndsRecord(rest)
    ensures ReadRecord(CsvRow([], format) + rest, format.separator) == Some(Record([""], rest))
  {
    PrintedEnds("", "", rest, format.separator);
  }

  // ---- the file ----

  /** What a row of a file reads as: an empty one has one empty cell. */
  function LineReadsAs(values: seq<Value>, format: Format): seq<string>
  {
    if values == [] then [""] else RowReadsAs(values, format)
  }

  function LinesReadAs(rows: seq<seq<Value>>, format: Format): seq<seq<string>>
  {
    if rows == [] then [] else [LineReadsAs(rows[0], format)] + LinesReadAs(rows[1..], format)
  }

  /** What a file reads as: one of no rows is one empty line. */
  function FileReadsAs(rows: seq<seq<Value>>, format: Format): seq<seq<string>>
  {
    if rows == [] then [[""]] else LinesReadAs(rows, format)
  }

  lemma {:induction false} LineReads(values: seq<Value>, format: Format, rest: string)
    requires IsFormat(format) && EndsRecord(rest)
    ensures ReadRecord(CsvRow(values, format) + rest, format.separator) == Some(Record(LineReadsAs(values, format), rest))
  {
    if values == [] {
      EmptyRowReads(format, rest);
    } else {
      RowReads(values, format, rest);
    }
  }

  /** The text of a file's lines, each with its line end. */
  function Lines(rows: seq<seq<Value>>, format: Format, end: string): string
  {
    Join(Rows(rows, format), end) + end
  }

  lemma {:induction false} LinesUnfold(rows: seq<seq<Value>>, format: Format, end: string)
    requires |rows| > 1
    ensures Lines(rows, format, end) == CsvRow(rows[0], format) + (end + Lines(rows[1..], format, end))
  {
    var lines := Rows(rows, format);
    assert lines[1..] == Rows(rows[1..], format);
    assert |Rows(rows[1..], format)| > 0;
  }

  lemma {:induction false} LinesRead(rows: seq<seq<Value>>, format: Format, end: string)
    requires IsFormat(format) && rows != [] && end == LINE_END
    ensures ReadRecords(Lines(rows, format, end), format.separator) == Some(LinesReadAs(rows, format))
  {
    if |rows| == 1 {
      assert rows[1..] == [];
      assert Rows(rows, format) == [CsvRow(rows[0], format)];
      LineReads(rows[0], format, end);
      RecordEnds(CsvRow(rows[0], format) + end, LineReadsAs(rows[0], format), format.separator);
      assert LinesReadAs(rows, format) == [LineReadsAs(rows[0], format)];
    } else {
      var more := Lines(rows[1..], format, end);
      LinesRead(rows[1..], format, end);
      LinesUnfold(rows, format, end);
      LineReads(rows[0], format, end + more);
    }
  }

  /** A reader of the file gets, line by line, what every value says: for all rows and both formats. */
  lemma {:induction false} FileReads(rows: seq<seq<Value>>, format: Format)
    requires IsFormat(format)
    ensures ReadFile(CsvFile(rows, format), format.separator) == Some(FileReadsAs(rows, format))
  {
    var text := Lines(rows, format, LINE_END);
    assert CsvFile(rows, format) == BYTE_ORDER_MARK + text;
    assert CsvFile(rows, format)[1..] == text;
    if rows == [] {
      EmptyRowReads(format, LINE_END);
      RecordEnds(CsvRow([], format) + LINE_END, [""], format.separator);
    } else {
      LinesRead(rows, format, LINE_END);
    }
  }

  // ---- the round trip ----

  function SaidRow(values: seq<Value>, format: Format): seq<string>
  {
    if values == [] then [] else [Said(values[0], format)] + SaidRow(values[1..], format)
  }

  function SaidRows(rows: seq<seq<Value>>, format: Format): seq<seq<string>>
  {
    if rows == [] then [] else [SaidRow(rows[0], format)] + SaidRows(rows[1..], format)
  }

  /** Nothing in the row is split by its own comma. */
  predicate NoneSplits(values: seq<Value>, format: Format)
  {
    forall i :: 0 <= i < |values| ==> !Splits(values[i], format)
  }

  lemma {:induction false} RowSaysItself(values: seq<Value>, format: Format)
    ensures |RowReadsAs(values, format)| >= |SaidRow(values, format)| == |values|
    ensures NoneSplits(values, format) <==> RowReadsAs(values, format) == SaidRow(values, format)
    ensures NoneSplits(values, format) <==> |RowReadsAs(values, format)| == |values|
  {
    if values != [] {
      var rest := values[1..];
      RowSaysItself(rest, format);
      assert NoneSplits(values, format) <==> !Splits(values[0], format) && NoneSplits(rest, format) by {
        assert forall i :: 0 <= i < |rest| ==> rest[i] == values[i + 1];
        assert forall i :: 1 <= i < |values| ==> values[i] == rest[i - 1];
      }
    }
  }

  lemma {:induction false} LinesSayThemselves(rows: seq<seq<Value>>, format: Format)
    ensures LinesReadAs(rows, format) == SaidRows(rows, format) <==>
            forall i :: 0 <= i < |rows| ==> rows[i] != [] && NoneSplits(rows[i], format)
  {
    if rows != [] {
      var rest := rows[1..];
      LinesSayThemselves(rest, format);
      RowSaysItself(rows[0], format);
      assert LineReadsAs(rows[0], format) == SaidRow(rows[0], format) <==> rows[0] != [] && NoneSplits(rows[0], format);
      assert LinesReadAs(rows, format)[1..] == LinesReadAs(rest, format);
      assert SaidRows(rows, format)[1..] == SaidRows(rest, format);
      assert LinesReadAs(rows, format)[0] == LineReadsAs(rows[0], format) && SaidRows(rows, format)[0] == SaidRow(rows[0], format);
      assert forall i :: 0 <= i < |rest| ==> rest[i] == rows[i + 1];
      assert forall i :: 1 <= i < |rows| ==> rows[i] == rest[i - 1];
    }
  }

  /**
   * A reader of RFC 4180 gets back every row's cells, each saying its value, exactly when the file has
   * a row, every row has a cell, and no number is written with the separator as its decimal mark.
   */
  lemma {:induction false} FileRoundTrips(rows: seq<seq<Value>>, format: Format)
    requires IsFormat(format)
    ensures ReadFile(CsvFile(rows, format), format.separator) == Some(SaidRows(rows, format)) <==>
            rows != [] && forall i :: 0 <= i < |rows| ==> rows[i] != [] && NoneSplits(rows[i], format)
  {
    FileReads(rows, format);
    LinesSayThemselves(rows, format);
  }

  /** The two formats the exports are offered in bring every file of non-empty rows back. */
  lemma {:induction false} ShippedFormatsRoundTrip(rows: seq<seq<Value>>, format: Format)
    requires format == CSV_STANDARD || format == CSV_EXCEL_FR
    requires rows != [] && forall i :: 0 <= i < |rows| ==> rows[i] != []
    ensures ReadFile(CsvFile(rows, format), format.separator) == Some(SaidRows(rows, format))
  {
    FileRoundTrips(rows, format);
  }

  /** No cell a reader gets starts like a formula, unless the value was a plain number. */
  lemma {:induction false} NoCellIsAFormula(value: Value, format: Format)
    ensures LeadsFormula(Said(value, format)) ==> value.Text? && IsPlainNumber(value.text)
  {
  }
}
