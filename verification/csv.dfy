/**
 The four-column catalog CSV: parser and printer (quoting as in section 2 of RFC 4180, but
 without line breaks inside quotes).
 */
module Csv {
  import opened Wrappers

  datatype Row = Row(category: string, name: string, unit: string, rate: string)

  /** The exceptions of the parser; rows are numbered among the non-blank lines, from 1. */
  datatype ParseError = FileEmpty | BadHeader | BadRow(row: nat, columns: nat)

  // ---------------------------------------------------------------- characters

  /** What `String.prototype.trim` strips: white space and line terminators. */
  predicate IsSpace(c: char) {
    var n := c as int;
    || 9 <= n <= 13 || n == 0x20 || n == 0xA0 || n == 0x1680 || 0x2000 <= n <= 0x200A
    || n == 0x2028 || n == 0x2029 || n == 0x202F || n == 0x205F || n == 0x3000 || n == 0xFEFF
  }

  function TrimStart(s: string): string {
    if s != "" && IsSpace(s[0]) then TrimStart(s[1..]) else s
  }

  function TrimEnd(s: string): string {
    if s != "" && IsSpace(s[|s| - 1]) then TrimEnd(s[..|s| - 1]) else s
  }

  function Trim(s: string): string {
    TrimEnd(TrimStart(s))
  }

  predicate Trimmed(s: string) {
    s != "" ==> !IsSpace(s[0]) && !IsSpace(s[|s| - 1])
  }

  /** Lower case; beyond ASCII no letter maps onto one the header uses. */
  function Lower(s: string): string {
    seq(|s|, i requires 0 <= i < |s| => if 'A' <= s[i] <= 'Z' then s[i] - 'A' + 'a' else s[i])
  }

  lemma Assoc<T>(a: seq<T>, b: seq<T>, c: seq<T>)
    ensures (a + b) + c == a + (b + c)
  {
  }

  lemma {:induction false} TrimStartFacts(s: string)
    ensures TrimStart(s) != "" ==> !IsSpace(TrimStart(s)[0])
    ensures forall c :: c in TrimStart(s) ==> c in s
    ensures forall c :: c in s && !IsSpace(c) ==> c in TrimStart(s)
  {
    if s != "" && IsSpace(s[0]) {
      TrimStartFacts(s[1..]);
      assert s == [s[0]] + s[1..];
    }
  }

  lemma {:induction false} TrimEndFacts(s: string)
    ensures TrimEnd(s) != "" ==> !IsSpace(TrimEnd(s)[|TrimEnd(s)| - 1]) && TrimEnd(s)[0] == s[0]
    ensures forall c :: c in TrimEnd(s) ==> c in s
    ensures forall c :: c in s && !IsSpace(c) ==> c in TrimEnd(s)
  {
    if s != "" && IsSpace(s[|s| - 1]) {
      TrimEndFacts(s[..|s| - 1]);
      assert s == s[..|s| - 1] + [s[|s| - 1]];
    }
  }

  lemma TrimFacts(s: string)
    ensures Trimmed(Trim(s))
    ensures Trimmed(s) ==> Trim(s) == s
    ensures forall c :: c in Trim(s) ==> c in s
    ensures forall c :: c in s && !IsSpace(c) ==> c in Trim(s)
  {
    TrimStartFacts(s);
    TrimEndFacts(TrimStart(s));
  }

  // ---------------------------------------------------------------- one line

  /** What parsing the rest of a line adds, from the state the scanner is in. */
  function Scan(line: string, inQuotes: bool, current: string, fields: seq<string>): seq<string> {
    if line == "" then fields + [current]
    else
      var c, rest := line[0], line[1..];
      if inQuotes then
        if c == '"' && rest != "" && rest[0] == '"' then Scan(rest[1..], true, current + ['"'], fields)
        else if c == '"' then Scan(rest, false, current, fields)
        else Scan(rest, true, current + [c], fields)
      else if c == '"' then Scan(rest, true, current, fields)
      else if c == ',' then Scan(rest, false, "", fields + [current])
      else Scan(rest, false, current + [c], fields)
  }

  /** The character loop. */
  method ParseLine(line: string) returns (fields: seq<string>)
    ensures fields == Scan(line, false, "", [])
  {
    fields := [];
    var current := "";
    var inQuotes := false;
    var i := 0;
    while i < |line|
      invariant 0 <= i <= |line|
      invariant Scan(line, false, "", []) == Scan(line[i..], inQuotes, current, fields)
    {
      var c := line[i];
      assert line[i..][1..] == line[i + 1..];
      assert i + 1 < |line| ==> line[i + 1..][1..] == line[i + 2..];
      if inQuotes {
        if c == '"' && i + 1 < |line| && line[i + 1] == '"' {
          current := current + ['"'];
          i := i + 1;
        } else if c == '"' {
          inQuotes := false;
        } else {
          current := current + [c];
        }
      } else if c == '"' {
        inQuotes := true;
      } else if c == ',' {
        fields := fields + [current];
        current := "";
      } else {
        current := current + [c];
      }
      i := i + 1;
    }
    fields := fields + [current];
  }

  /** Parsing makes no characters up. */
  lemma {:induction false} ScanAdds(line: string, inQuotes: bool, current: string, fields: seq<string>, c: char)
    requires c !in line && c !in current && forall f :: f in fields ==> c !in f
    requires c != '"'
    ensures forall f :: f in Scan(line, inQuotes, current, fields) ==> c !in f
  {
    if line != "" {
      var h, rest := line[0], line[1..];
      if inQuotes {
        if h == '"' && rest != "" && rest[0] == '"' { ScanAdds(rest[1..], true, current + ['"'], fields, c); }
        else if h == '"' { ScanAdds(rest, false, current, fields, c); }
        else { ScanAdds(rest, true, current + [h], fields, c); }
      }
      else if h == '"' { ScanAdds(rest, true, current, fields, c); }
      else if h == ',' { ScanAdds(rest, false, "", fields + [current], c); }
      else { ScanAdds(rest, false, current + [h], fields, c); }
    }
  }

  // ---------------------------------------------------------------- printing

  /** `value.replace(/"/g, '""')`. */
  function Doubled(s: string): string {
    if s == "" then "" else (if s[0] == '"' then "\"\"" else [s[0]]) + Doubled(s[1..])
  }

  function Escape(s: string): string {
    if ',' in s || '"' in s || '\n' in s then "\"" + Doubled(s) + "\"" else s
  }

  function RowLine(r: Row): string {
    Escape(r.category) + ("," + (Escape(r.name) + ("," + (Escape(r.unit) + ("," + Escape(r.rate))))))
  }

  /** The column names; a header line is the names joined by commas. */
  const COLUMNS := Row("category", "name", "unit", "unit_rate")

  function HeaderLine(columns: Row): string {
    columns.category + ("," + (columns.name + ("," + (columns.unit + ("," + columns.rate)))))
  }

  function Join(lines: seq<string>): string {
    if lines == [] then "" else if |lines| == 1 then lines[0] else lines[0] + "\n" + Join(lines[1..])
  }

  function RowLines(rows: seq<Row>): seq<string> {
    seq(|rows|, i requires 0 <= i < |rows| => RowLine(rows[i]))
  }

  function Serialize(rows: seq<Row>): string {
    Join([HeaderLine(COLUMNS)] + RowLines(rows))
  }

  /** Fields without commas, quotes and line breaks are printed as they are. */
  lemma PlainRowPrinted(r: Row)
    requires forall c :: c in r.category + r.name + r.unit + r.rate ==> c != ',' && c != '"' && c != '\n'
    ensures RowLine(r) == r.category + "," + r.name + "," + r.unit + "," + r.rate
  {
    assert forall c :: c in r.category ==> c in r.category + r.name + r.unit + r.rate;
    assert forall c :: c in r.name ==> c in r.category + r.name + r.unit + r.rate;
    assert forall c :: c in r.unit ==> c in r.category + r.name + r.unit + r.rate;
    assert forall c :: c in r.rate ==> c in r.category + r.name + r.unit + r.rate;
  }

  lemma {:induction false} JoinSnoc(lines: seq<string>, last: string)
    requires lines != []
    ensures Join(lines + [last]) == Join(lines) + ("\n" + last)
  {
    var all := lines + [last];
    if |lines| == 1 {
      assert all[1..] == [last];
    } else {
      JoinSnoc(lines[1..], last);
      assert all[1..] == lines[1..] + [last];
      Assoc(lines[0] + "\n", Join(lines[1..]), "\n" + last);
    }
  }

  /** A file begins with the names of the columns, and has a line for each row, in order. */
  lemma FileGrowsByLine(rows: seq<Row>, r: Row)
    ensures Serialize([]) == "category,name,unit,unit_rate"
    ensures Serialize(rows + [r]) == Serialize(rows) + ("\n" + RowLine(r))
  {
    var lines := [HeaderLine(COLUMNS)] + RowLines(rows);
    assert RowLines(rows + [r]) == RowLines(rows) + [RowLine(r)];
    assert [HeaderLine(COLUMNS)] + RowLines(rows + [r]) == lines + [RowLine(r)];
    JoinSnoc(lines, RowLine(r));
    HeaderPrinted();
  }

  lemma HeaderPrinted()
    ensures Serialize([]) == "category,name,unit,unit_rate"
  {
    assert RowLines([]) == [] && [HeaderLine(COLUMNS)] + [] == [HeaderLine(COLUMNS)];
    assert Serialize([]) == HeaderLine(COLUMNS);
  }

  method SerializeCatalog(rows: seq<Row>) returns (text: string)
    ensures text == Serialize(rows)
  {
    var lines := [HeaderLine(COLUMNS)];
    for i := 0 to |rows|
      invariant lines == [HeaderLine(COLUMNS)] + RowLines(rows[..i])
    {
      assert RowLines(rows[..i + 1]) == RowLines(rows[..i]) + [RowLine(rows[i])];
      lines := lines + [RowLine(rows[i])];
    }
    assert rows[..|rows|] == rows;
    text := Join(lines);
  }

  // ---------------------------------------------------------------- parsing

  /** `text.replace(/\r\n/g, "\n")`. */
  function Normalize(s: string): string {
    if |s| < 2 then s
    else if s[0] == '\r' && s[1] == '\n' then ['\n'] + Normalize(s[2..])
    else [s[0]] + Normalize(s[1..])
  }

  /** `text.split("\n")`. */
  function Split(s: string): (lines: seq<string>)
    ensures lines != [] && forall l :: l in lines ==> '\n' !in l
  {
    if s == "" then [""]
    else
      var rest := Split(s[1..]);
      if s[0] == '\n' then [""] + rest else [[s[0]] + rest[0]] + rest[1..]
  }

  function NonBlank(lines: seq<string>): (kept: seq<string>)
    ensures forall l :: l in kept ==> l in lines
  {
    if lines == [] then []
    else (if Trim(lines[0]) != "" then [lines[0]] else []) + NonBlank(lines[1..])
  }

  predicate IsHeader(line: string, columns: Row) {
    var fields := Scan(line, false, "", []);
    |fields| == 4 && Lower(Trim(fields[0])) == columns.category && Lower(Trim(fields[1])) == columns.name
      && Lower(Trim(fields[2])) == columns.unit && Lower(Trim(fields[3])) == columns.rate
  }

  /** Equal but for the case of ASCII letters, which `lower` has none of in capitals. */
  predicate SameLetters(text: string, lower: string) {
    && |text| == |lower|
    && forall i :: 0 <= i < |text| ==>
         if 'A' <= text[i] <= 'Z' then lower[i] as int == text[i] as int + 32 else lower[i] == text[i]
  }

  /** A header is recognised in any case and with space around its four names, and not otherwise. */
  lemma HeaderInAnyCase(line: string, columns: Row)
    ensures IsHeader(line, columns) <==>
              var fields := Scan(line, false, "", []);
              && |fields| == 4
              && SameLetters(Trim(fields[0]), columns.category) && SameLetters(Trim(fields[1]), columns.name)
              && SameLetters(Trim(fields[2]), columns.unit) && SameLetters(Trim(fields[3]), columns.rate)
  {
    var fields := Scan(line, false, "", []);
    if |fields| == 4 {
      LowerIff(Trim(fields[0]), columns.category);
      LowerIff(Trim(fields[1]), columns.name);
      LowerIff(Trim(fields[2]), columns.unit);
      LowerIff(Trim(fields[3]), columns.rate);
    }
  }

  lemma LowerIff(text: string, lower: string)
    ensures Lower(text) == lower <==> SameLetters(text, lower)
  {
    if SameLetters(text, lower) {
      assert forall i :: 0 <= i < |text| ==> Lower(text)[i] == lower[i];
    }
  }

  function ToRow(fields: seq<string>): Row
    requires |fields| == 4
  {
    Row(Trim(fields[0]), Trim(fields[1]), Trim(fields[2]), Trim(fields[3]))
  }

  /** The rows of the data lines, the first of which is row `n`; the first bad one throws. */
  function ParseRows(lines: seq<string>, n: nat): Result<seq<Row>, ParseError> {
    if lines == [] then Ok([])
    else
      var fields := Scan(lines[0], false, "", []);
      if |fields| != 4 then Err(BadRow(n, |fields|))
      else match ParseRows(lines[1..], n + 1)
        case Err(e) => Err(e)
        case Ok(rows) => Ok([ToRow(fields)] + rows)
  }

  function ColumnCount(line: string): nat {
    |Scan(line, false, "", [])|
  }

  /** Line `i` is the first without exactly four columns. */
  predicate FirstBad(lines: seq<string>, i: nat) {
    i < |lines| && ColumnCount(lines[i]) != 4 && forall j :: 0 <= j < i ==> ColumnCount(lines[j]) == 4
  }

  /** A file is refused for its first bad row, which the error numbers and counts. */
  lemma {:induction false} RefusedForFirstBadRow(lines: seq<string>, n: nat)
    ensures ParseRows(lines, n).Ok? <==> forall i :: 0 <= i < |lines| ==> ColumnCount(lines[i]) == 4
    ensures ParseRows(lines, n).Ok? ==> |ParseRows(lines, n).value| == |lines|
    ensures ParseRows(lines, n).Err? ==>
              exists i: nat :: FirstBad(lines, i) && ParseRows(lines, n).error == BadRow(n + i, ColumnCount(lines[i]))
  {
    if lines != [] {
      assert ColumnCount(lines[0]) == 4 || FirstBad(lines, 0);
      if ColumnCount(lines[0]) == 4 {
        var rest := lines[1..];
        RefusedForFirstBadRow(rest, n + 1);
        assert forall i :: 0 < i < |lines| ==> lines[i] == rest[i - 1];
        if ParseRows(rest, n + 1).Err? {
          var i: nat :| FirstBad(rest, i) && ParseRows(rest, n + 1).error == BadRow(n + 1 + i, ColumnCount(rest[i]));
          forall j | 0 <= j < i + 1 ensures ColumnCount(lines[j]) == 4 {
            assert j > 0 ==> ColumnCount(rest[j - 1]) == 4;
          }
          assert FirstBad(lines, i + 1) && lines[i + 1] == rest[i];
        }
      }
    }
  }

  function ParseAs(text: string, columns: Row): Result<seq<Row>, ParseError> {
    var lines := NonBlank(Split(Normalize(text)));
    if lines == [] then Err(FileEmpty)
    else if !IsHeader(lines[0], columns) then Err(BadHeader)
    else ParseRows(lines[1..], 2)
  }

  function Parse(text: string): Result<seq<Row>, ParseError> {
    ParseAs(text, COLUMNS)
  }

  // ---------------------------------------------------------------- a printed line reads back

  lemma {:induction false} ScanPlain(f: string, rest: string, current: string, fields: seq<string>)
    requires ',' !in f && '"' !in f
    ensures Scan(f + rest, false, current, fields) == Scan(rest, false, current + f, fields)
  {
    if f == "" {
      assert f + rest == rest && current + f == current;
    } else {
      ScanPlain(f[1..], rest, current + [f[0]], fields);
      assert (f + rest)[1..] == f[1..] + rest;
      assert current + [f[0]] + f[1..] == current + f;
    }
  }

  /** One character inside quotes, as it was printed. */
  lemma ScanQuotedChar(c: char, s: string, current: string, fields: seq<string>)
    ensures Scan(Doubled([c]) + s, true, current, fields) == Scan(s, true, current + [c], fields)
  {
    assert Doubled([c]) == if c == '"' then "\"\"" else [c];
    if c == '"' {
      var t := "\"\"" + s;
      assert t[1..][1..] == s && t[1..][0] == '"';
    } else {
      assert ([c] + s)[1..] == s;
    }
  }

  lemma DoubledOne(c: char)
    ensures Doubled([c]) == if c == '"' then "\"\"" else [c]
  {
    assert [c][1..] == "";
    assert Doubled([c]) == (if c == '"' then "\"\"" else [c]) + "";
  }

  lemma DoubledFirst(f: string, close: string)
    requires f != ""
    ensures Doubled(f) + close == Doubled([f[0]]) + (Doubled(f[1..]) + close)
  {
    DoubledOne(f[0]);
    Assoc(Doubled([f[0]]), Doubled(f[1..]), close);
  }

  /** Inside quotes, up to the closing one, which no further quote follows. */
  lemma {:induction false} ScanQuoted(f: string, close: string, current: string, fields: seq<string>)
    requires close != "" && close[0] == '"' && (|close| > 1 ==> close[1] != '"')
    ensures Scan(Doubled(f) + close, true, current, fields) == Scan(close[1..], false, current + f, fields)
  {
    if f == "" {
      assert Doubled(f) + close == close && current + f == current;
    } else {
      var tail := Doubled(f[1..]) + close;
      ScanQuoted(f[1..], close, current + [f[0]], fields);
      assert current + [f[0]] + f[1..] == current + f;
      DoubledFirst(f, close);
      ScanQuotedChar(f[0], tail, current, fields);
    }
  }

  lemma ScanEnclosed(f: string, rest: string, fields: seq<string>)
    requires rest != "" ==> rest[0] != '"'
    ensures Scan("\"" + Doubled(f) + "\"" + rest, false, "", fields) == Scan(rest, false, "" + f, fields)
  {
    var s := "\"" + Doubled(f) + "\"" + rest;
    var close := "\"" + rest;
    assert s[1..] == Doubled(f) + close && close[1..] == rest;
    ScanQuoted(f, close, "", fields);
  }

  /** A quote may open anywhere in a field, and what it encloses is taken literally. */
  lemma QuotesOpenAnywhere(before: string, quoted: string, rest: string, fields: seq<string>)
    requires ',' !in before && '"' !in before && (rest != "" ==> rest[0] != '"')
    ensures Scan(before + ("\"" + (Doubled(quoted) + ("\"" + rest))), false, "", fields)
         == Scan(rest, false, before + quoted, fields)
  {
    var close := "\"" + rest;
    var tail := "\"" + (Doubled(quoted) + close);
    ScanPlain(before, tail, "", fields);
    assert "" + before == before && tail[1..] == Doubled(quoted) + close && close[1..] == rest;
    ScanQuoted(quoted, close, before, fields);
  }

  lemma {:induction false} ScanUnclosed(s: string, current: string, fields: seq<string>)
    requires '"' !in s
    ensures Scan(s, true, current, fields) == fields + [current + s]
  {
    if s == "" {
      assert current + s == current;
    } else {
      ScanUnclosed(s[1..], current + [s[0]], fields);
      assert current + [s[0]] + s[1..] == current + s;
    }
  }

  /** One left open takes the rest of the line, commas and all. */
  lemma UnclosedQuote(before: string, rest: string, fields: seq<string>)
    requires ',' !in before && '"' !in before && '"' !in rest
    ensures Scan(before + ("\"" + rest), false, "", fields) == fields + [before + rest]
  {
    ScanPlain(before, "\"" + rest, "", fields);
    assert "" + before == before && ("\"" + rest)[1..] == rest;
    ScanUnclosed(rest, before, fields);
  }

  lemma ScanEscaped(f: string, rest: string, fields: seq<string>)
    requires rest != "" ==> rest[0] != '"'
    ensures Scan(Escape(f) + rest, false, "", fields) == Scan(rest, false, f, fields)
  {
    assert "" + f == f;
    if ',' in f || '"' in f || '\n' in f {
      ScanEnclosed(f, rest, fields);
    } else {
      ScanPlain(f, rest, "", fields);
    }
  }

  /** One printed field and the comma after it. */
  lemma ScanField(f: string, rest: string, fields: seq<string>, after: seq<string>)
    requires after == fields + [f]
    ensures Scan(Escape(f) + ("," + rest), false, "", fields) == Scan(rest, false, "", after)
  {
    ScanEscaped(f, "," + rest, fields);
    assert ("," + rest)[1..] == rest;
  }

  lemma RowLineReadsBack(r: Row)
    ensures Scan(RowLine(r), false, "", []) == [r.category, r.name, r.unit, r.rate]
  {
    var s3 := Escape(r.rate);
    var s2 := Escape(r.unit) + ("," + s3);
    var s1 := Escape(r.name) + ("," + s2);
    ScanField(r.category, s1, [], [r.category]);
    ScanField(r.name, s2, [r.category], [r.category, r.name]);
    ScanField(r.unit, s3, [r.category, r.name], [r.category, r.name, r.unit]);
    assert s3 + "" == s3;
    ScanEscaped(r.rate, "", [r.category, r.name, r.unit]);
  }

  // ---------------------------------------------------------------- a printed file reads back

  /** A field the format can carry: no surrounding space, no line break. */
  predicate Clean(f: string) {
    Trimmed(f) && '\n' !in f
  }

  predicate CleanRow(r: Row) {
    Clean(r.category) && Clean(r.name) && Clean(r.unit) && Clean(r.rate)
  }

  /** A line that survives joining and splitting. */
  predicate Sound(line: string) {
    line != "" && '\n' !in line && line[|line| - 1] != '\r' && ',' in line
  }

  lemma NormalizeStep(s: string)
    requires s != "" && (s[0] == '\r' && |s| >= 2 ==> s[1] != '\n')
    ensures Normalize(s) == [s[0]] + Normalize(s[1..])
  {
    if |s| == 1 { assert s == [s[0]] + s[1..]; }
  }

  lemma {:induction false} NormalizeLine(line: string, rest: string)
    requires '\n' !in line && (line != "" ==> line[|line| - 1] != '\r')
    ensures Normalize(line + ("\n" + rest)) == line + ("\n" + Normalize(rest))
  {
    var tail := "\n" + rest;
    NormalizeStep(line + tail);
    if line == "" {
      assert line + tail == tail && tail[1..] == rest;
    } else {
      assert (line + tail)[1..] == line[1..] + tail;
      NormalizeLine(line[1..], rest);
      Assoc([line[0]], line[1..], "\n" + Normalize(rest));
      assert [line[0]] + line[1..] == line;
    }
  }

  lemma {:induction false} NormalizeLastLine(line: string)
    requires '\n' !in line
    ensures Normalize(line) == line
  {
    if line != "" {
      NormalizeStep(line);
      NormalizeLastLine(line[1..]);
    }
  }

  lemma {:induction false} SplitLine(line: string, rest: string)
    requires '\n' !in line
    ensures Split(line + ("\n" + rest)) == [line] + Split(rest)
    ensures Split(line) == [line]
  {
    var s := line + ("\n" + rest);
    if line == "" {
      assert s == "\n" + rest && s[1..] == rest;
    } else {
      SplitLine(line[1..], rest);
      assert s[1..] == line[1..] + ("\n" + rest);
      assert [line[0]] + line[1..] == line;
    }
  }

  predicate AllSound(lines: seq<string>) {
    forall i :: 0 <= i < |lines| ==> Sound(lines[i])
  }

  lemma {:induction false} SplitJoin(lines: seq<string>)
    requires lines != [] && AllSound(lines)
    ensures Split(Normalize(Join(lines))) == lines
  {
    if |lines| == 1 {
      NormalizeLastLine(lines[0]);
      SplitLine(lines[0], "");
    } else {
      var rest := Join(lines[1..]);
      assert Join(lines) == lines[0] + ("\n" + rest);
      NormalizeLine(lines[0], rest);
      SplitLine(lines[0], Normalize(rest));
      SplitJoin(lines[1..]);
    }
  }

  lemma {:induction false} SoundNotBlank(lines: seq<string>)
    requires AllSound(lines)
    ensures NonBlank(lines) == lines
  {
    if lines != [] {
      TrimFacts(lines[0]);
      assert ',' in Trim(lines[0]);
      SoundNotBlank(lines[1..]);
    }
  }

  lemma {:induction false} DoubledKeepsOut(s: string, c: char)
    requires c !in s && c != '"'
    ensures c !in Doubled(s)
  {
    if s != "" { DoubledKeepsOut(s[1..], c); }
  }

  lemma EscapeFacts(f: string)
    requires Clean(f)
    ensures '\n' !in Escape(f)
    ensures Escape(f) != "" ==> Escape(f)[|Escape(f)| - 1] != '\r'
  {
    DoubledKeepsOut(f, '\n');
  }

  lemma RowLineSound(r: Row)
    requires CleanRow(r)
    ensures Sound(RowLine(r))
  {
    EscapeFacts(r.category);
    EscapeFacts(r.name);
    EscapeFacts(r.unit);
    EscapeFacts(r.rate);
    var s3 := "," + Escape(r.rate);
    assert RowLine(r)[|RowLine(r)| - 1] == s3[|s3| - 1];
    assert RowLine(r)[|Escape(r.category)|] == ',';
  }

  predicate AllClean(rows: seq<Row>) {
    forall i :: 0 <= i < |rows| ==> CleanRow(rows[i])
  }

  lemma {:induction false} ParsePrinted(lines: seq<string>, rows: seq<Row>, n: nat)
    requires |lines| == |rows| && AllClean(rows)
    requires forall i :: 0 <= i < |rows| ==> lines[i] == RowLine(rows[i])
    ensures ParseRows(lines, n) == Ok(rows)
  {
    if rows != [] {
      var r := rows[0];
      RowLineReadsBack(r);
      TrimFacts(r.category);
      TrimFacts(r.name);
      TrimFacts(r.unit);
      TrimFacts(r.rate);
      ParsePrinted(lines[1..], rows[1..], n + 1);
      assert rows == [r] + rows[1..];
    }
  }

  /** A word of lower-case letters and underscores. */
  predicate IsWord(s: string) {
    forall i :: 0 <= i < |s| ==> 'a' <= s[i] <= 'z' || s[i] == '_'
  }

  /** Such a word is its own printed form, and its own trimmed lower-case form. */
  lemma WordIsPlain(w: string)
    requires IsWord(w)
    ensures Escape(w) == w && Lower(Trim(w)) == w && Clean(w)
  {
    assert forall c :: c in w ==> 'a' <= c <= 'z' || c == '_';
    assert Trimmed(w);
    TrimFacts(w);
    forall i | 0 <= i < |w| ensures Lower(w)[i] == w[i] {
      assert w[i] in w;
    }
  }

  lemma HeaderReadsBack(columns: Row)
    requires IsWord(columns.category) && IsWord(columns.name) && IsWord(columns.unit) && IsWord(columns.rate)
    ensures IsHeader(HeaderLine(columns), columns) && Sound(HeaderLine(columns))
  {
    WordIsPlain(columns.category);
    WordIsPlain(columns.name);
    WordIsPlain(columns.unit);
    WordIsPlain(columns.rate);
    assert HeaderLine(columns) == RowLine(columns);
    RowLineReadsBack(columns);
    RowLineSound(columns);
  }

  lemma PrintedLinesSound(columns: Row, rows: seq<Row>)
    requires Sound(HeaderLine(columns)) && AllClean(rows)
    ensures AllSound([HeaderLine(columns)] + RowLines(rows))
  {
    forall i | 0 <= i < |rows| ensures Sound(RowLines(rows)[i]) {
      RowLineSound(rows[i]);
    }
  }

  lemma PrintedReadsBack(columns: Row, rows: seq<Row>)
    requires IsHeader(HeaderLine(columns), columns) && Sound(HeaderLine(columns)) && AllClean(rows)
    ensures ParseAs(Join([HeaderLine(columns)] + RowLines(rows)), columns) == Ok(rows)
  {
    var lines := [HeaderLine(columns)] + RowLines(rows);
    PrintedLinesSound(columns, rows);
    SplitJoin(lines);
    SoundNotBlank(lines);
    assert lines[1..] == RowLines(rows);
    ParsePrinted(RowLines(rows), rows, 2);
  }

  lemma ColumnsAreWords()
    ensures IsWord(COLUMNS.category) && IsWord(COLUMNS.name) && IsWord(COLUMNS.unit) && IsWord(COLUMNS.rate)
  {
  }

  lemma CleanRoundTrip(rows: seq<Row>)
    requires AllClean(rows)
    ensures Parse(Serialize(rows)) == Ok(rows)
  {
    ColumnsAreWords();
    HeaderReadsBack(COLUMNS);
    PrintedReadsBack(COLUMNS, rows);
  }

  lemma {:induction false} ParsedRowsClean(lines: seq<string>, n: nat)
    requires ParseRows(lines, n).Ok? && forall l :: l in lines ==> '\n' !in l
    ensures AllClean(ParseRows(lines, n).value)
  {
    if lines != [] {
      ParsedRowsClean(lines[1..], n + 1);
      var fields := Scan(lines[0], false, "", []);
      ScanAdds(lines[0], false, "", [], '\n');
      forall k | 0 <= k < 4 ensures Clean(Trim(fields[k])) {
        TrimFacts(fields[k]);
        assert fields[k] in fields;
      }
    }
  }

  /** The parser only ever produces trimmed fields without line breaks. */
  lemma ParsedIsClean(text: string)
    requires Parse(text).Ok?
    ensures AllClean(Parse(text).value)
  {
    ParsedRowsClean(NonBlank(Split(Normalize(text)))[1..], 2);
  }

  /**
   The law the pair is for: printing and parsing gives the rows back exactly when every
   field is trimmed and free of line breaks. Commas, quotes and doubled quotes are all fine.
   */
  lemma RoundTripExactly(rows: seq<Row>)
    ensures Parse(Serialize(rows)) == Ok(rows) <==> AllClean(rows)
  {
    if AllClean(rows) {
      CleanRoundTrip(rows);
    } else if Parse(Serialize(rows)) == Ok(rows) {
      ParsedIsClean(Serialize(rows));
      assert false;
    }
  }

  /** The characters a field of one character cannot have: white space and line breaks. */
  lemma OneCharacterFields(c: char)
    ensures var rows := [Row([c], "a", "b", "1")]; var n := c as int;
            Parse(Serialize(rows)) != Ok(rows) <==>
              || n in {9, 10, 11, 12, 13, 32, 160, 5760, 8232, 8233, 8239, 8287, 12288, 65279}
              || (8192 <= n <= 8202)
  {
    var rows := [Row([c], "a", "b", "1")];
    RoundTripExactly(rows);
    assert CleanRow(rows[0]) <==> Clean([c]);
  }

  /** So every file the parser accepts is unchanged by an export and another import. */
  lemma ReimportIsStable(text: string)
    requires Parse(text).Ok?
    ensures Parse(Serialize(Parse(text).value)) == Parse(text)
  {
    ParsedIsClean(text);
    CleanRoundTrip(Parse(text).value);
  }

  // ---------------------------------------------------------------- the row an error names

  lemma {:induction false} NonBlankConcat(a: seq<string>, b: seq<string>)
    ensures NonBlank(a + b) == NonBlank(a) + NonBlank(b)
  {
    if a == [] {
      assert a + b == b;
    } else {
      NonBlankConcat(a[1..], b);
      assert (a + b)[0] == a[0] && (a + b)[1..] == a[1..] + b;
      Assoc(if Trim(a[0]) != "" then [a[0]] else [], NonBlank(a[1..]), NonBlank(b));
    }
  }

  /** Nothing is dropped exactly when nothing is blank. */
  lemma {:induction false} NonBlankAllIff(lines: seq<string>)
    ensures |NonBlank(lines)| <= |lines|
    ensures |NonBlank(lines)| == |lines| <==> forall j :: 0 <= j < |lines| ==> Trim(lines[j]) != ""
  {
    if lines != [] {
      var rest := lines[1..];
      NonBlankAllIff(rest);
      assert forall j :: 0 <= j < |rest| ==> rest[j] == lines[j + 1];
      assert forall j :: 0 < j < |lines| ==> lines[j] == rest[j - 1];
    }
  }

  /** Where a non-blank line stands among them; that is its place in the file exactly if no blank line precedes it. */
  lemma NonBlankAt(lines: seq<string>, k: nat)
    requires k < |lines| && Trim(lines[k]) != ""
    ensures |NonBlank(lines[..k])| < |NonBlank(lines)| && NonBlank(lines)[|NonBlank(lines[..k])|] == lines[k]
    ensures |NonBlank(lines[..k])| <= k
    ensures |NonBlank(lines[..k])| == k <==> forall j :: 0 <= j < k ==> Trim(lines[j]) != ""
  {
    assert lines == lines[..k] + lines[k..];
    NonBlankConcat(lines[..k], lines[k..]);
    NonBlankAllIff(lines[..k]);
  }

  /** And each of them stands somewhere in the file. */
  lemma {:induction false} NonBlankFrom(lines: seq<string>, p: nat) returns (k: nat)
    requires p < |NonBlank(lines)|
    ensures k < |lines| && Trim(lines[k]) != "" && |NonBlank(lines[..k])| == p
  {
    if Trim(lines[0]) != "" && p == 0 {
      k := 0;
    } else {
      var kept := if Trim(lines[0]) != "" then 1 else 0;
      var rest := NonBlankFrom(lines[1..], p - kept);
      k := rest + 1;
      assert lines[..k] == [lines[0]] + lines[1..][..rest];
      NonBlankConcat([lines[0]], lines[1..][..rest]);
      assert [lines[0]][1..] == [];
    }
  }

  /** A line that is not blank, nor the first such, which is the header. */
  ghost predicate IsData(lines: seq<string>, k: nat) {
    k < |lines| && Trim(lines[k]) != "" && NonBlank(lines[..k]) != []
  }

  /** The file line an error is about, and the number it gives it. */
  ghost predicate Blames(lines: seq<string>, k: nat, error: ParseError) {
    && error.BadRow? && IsData(lines, k)
    && error.columns == ColumnCount(lines[k]) != 4
    && error.row == |NonBlank(lines[..k])| + 1
  }

  lemma NonBlankBefore(lines: seq<string>, j: nat, k: nat)
    requires j < k <= |lines| && Trim(lines[j]) != ""
    ensures |NonBlank(lines[..j])| < |NonBlank(lines[..k])|
  {
    assert lines[..k][..j] == lines[..j];
    NonBlankAt(lines[..k], j);
  }

  /** Data lines before the first bad row are good. */
  lemma DataBefore(lines: seq<string>, i: nat, j: nat, k: nat)
    requires NonBlank(lines) != [] && FirstBad(NonBlank(lines)[1..], i)
    requires j < k < |lines| && |NonBlank(lines[..k])| == i + 1 && IsData(lines, j)
    ensures ColumnCount(lines[j]) == 4
  {
    NonBlankAt(lines, j);
    NonBlankBefore(lines, j, k);
    assert lines[j] == NonBlank(lines)[1..][|NonBlank(lines[..j])| - 1];
  }

  /**
   A row is refused for a line of the file that is not blank and not the header, the first of
   those without four columns. The number given is that line's place in the file, from 1,
   exactly when no blank line precedes it; else it is smaller.
   */
  lemma BadRowInFile(text: string, columns: Row) returns (k: nat)
    requires ParseAs(text, columns).Err? && ParseAs(text, columns).error.BadRow?
    ensures Blames(Split(Normalize(text)), k, ParseAs(text, columns).error)
    ensures ParseAs(text, columns).error.row <= k + 1
    ensures ParseAs(text, columns).error.row == k + 1
        <==> forall j :: 0 <= j < k ==> Trim(Split(Normalize(text))[j]) != ""
    ensures forall j: nat :: j < k && IsData(Split(Normalize(text)), j) ==> ColumnCount(Split(Normalize(text))[j]) == 4
  {
    var lines := Split(Normalize(text));
    var kept := NonBlank(lines);
    RefusedForFirstBadRow(kept[1..], 2);
    var i: nat :| FirstBad(kept[1..], i) && ParseAs(text, columns).error == BadRow(2 + i, ColumnCount(kept[1..][i]));
    k := NonBlankFrom(lines, i + 1);
    NonBlankAt(lines, k);
    forall j: nat | j < k && IsData(lines, j) ensures ColumnCount(lines[j]) == 4 {
      DataBefore(lines, i, j, k);
    }
  }

  /** Line `k` is the first that is not blank. */
  ghost predicate First(lines: seq<string>, k: nat) {
    k < |lines| && Trim(lines[k]) != "" && forall j :: 0 <= j < k ==> Trim(lines[j]) == ""
  }

  lemma {:induction false} AllBlank(lines: seq<string>)
    ensures NonBlank(lines) == [] <==> forall j :: 0 <= j < |lines| ==> Trim(lines[j]) == ""
  {
    if lines != [] {
      var rest := lines[1..];
      AllBlank(rest);
      assert forall j :: 0 <= j < |rest| ==> rest[j] == lines[j + 1];
      assert forall j :: 0 < j < |lines| ==> lines[j] == rest[j - 1];
    }
  }

  lemma FirstStands(lines: seq<string>) returns (k: nat)
    requires NonBlank(lines) != []
    ensures First(lines, k) && NonBlank(lines)[0] == lines[k]
  {
    k := NonBlankFrom(lines, 0);
    NonBlankAt(lines, k);
    AllBlank(lines[..k]);
    assert forall j :: 0 <= j < k ==> lines[..k][j] == lines[j];
  }

  /** What `ParseRows` answers is never about the whole file. */
  lemma RowErrors(lines: seq<string>, n: nat)
    ensures ParseRows(lines, n) != Err(FileEmpty) && ParseRows(lines, n) != Err(BadHeader)
  {
    RefusedForFirstBadRow(lines, n);
  }

  /** A file of blank lines is refused as empty; else the first line that is not blank must be the header. */
  lemma RefusedAtOnce(text: string, columns: Row)
    ensures ParseAs(text, columns) == Err(FileEmpty) <==>
              forall j :: 0 <= j < |Split(Normalize(text))| ==> Trim(Split(Normalize(text))[j]) == ""
    ensures ParseAs(text, columns) == Err(BadHeader) <==>
              exists k: nat :: First(Split(Normalize(text)), k) && !IsHeader(Split(Normalize(text))[k], columns)
  {
    var lines := Split(Normalize(text));
    AllBlank(lines);
    if NonBlank(lines) != [] {
      RowErrors(NonBlank(lines)[1..], 2);
      var k := FirstStands(lines);
      assert forall j: nat :: First(lines, j) ==> j == k;
    }
  }

  /** The same text with the line ends of another system. */
  function WithCrLf(s: string): string {
    if s == "" then "" else (if s[0] == '\n' then "\r\n" else [s[0]]) + WithCrLf(s[1..])
  }

  lemma {:induction false} NormalizeCrLf(s: string)
    requires '\r' !in s
    ensures Normalize(WithCrLf(s)) == s
  {
    if s != "" {
      var rest := s[1..];
      NormalizeCrLf(rest);
      assert s == [s[0]] + rest && '\r' !in rest;
      var t := WithCrLf(s);
      if s[0] == '\n' {
        assert t[0] == '\r' && t[1] == '\n' && t[2..] == WithCrLf(rest);
      } else {
        assert t[0] == s[0] && t[1..] == WithCrLf(rest);
        NormalizeStep(t);
      }
    }
  }

  /** A file parses alike with either line end. */
  lemma EitherLineEnd(text: string, columns: Row)
    requires '\r' !in text
    ensures ParseAs(WithCrLf(text), columns) == ParseAs(text, columns)
  {
    NormalizeCrLf(text);
    NormalizeNoCr(text);
  }

  lemma {:induction false} NormalizeNoCr(s: string)
    requires '\r' !in s
    ensures Normalize(s) == s
  {
    if s != "" {
      NormalizeStep(s);
      NormalizeNoCr(s[1..]);
      assert s == [s[0]] + s[1..];
    }
  }

  lemma EmptyBefore(s: string)
    ensures "" + s == s
  {
  }

  lemma BlankFirstLine(text: string)
    ensures Split(Normalize("\n" + text)) == [""] + Split(Normalize(text))
  {
    var rest := Normalize(text);
    NormalizeLine("", text);
    SplitLine("", rest);
    EmptyBefore("\n" + text);
    EmptyBefore("\n" + rest);
  }

  lemma BlankDropped(lines: seq<string>)
    ensures NonBlank([""] + lines) == NonBlank(lines)
  {
    assert ([""] + lines)[1..] == lines && Trim("") == "";
  }

  /** A blank line in front of a file moves every line of it, and no number. */
  lemma BlankLineInFront(text: string, columns: Row)
    ensures ParseAs("\n" + text, columns) == ParseAs(text, columns)
    ensures Split(Normalize("\n" + text)) == [""] + Split(Normalize(text))
  {
    BlankFirstLine(text);
    BlankDropped(Split(Normalize(text)));
  }

  lemma TwoColumns(n: nat)
    ensures ParseRows([","], n) == Err(BadRow(n, 2))
  {
    assert ","[1..] == "" && Scan(",", false, "", []) == ["", ""];
  }

  lemma RefusedSecondLine(columns: Row)
    requires IsHeader(HeaderLine(columns), columns) && Sound(HeaderLine(columns))
    ensures Split(Normalize(Join([HeaderLine(columns), ","]))) == [HeaderLine(columns), ","]
    ensures ParseAs(Join([HeaderLine(columns), ","]), columns) == Err(BadRow(2, 2))
  {
    var lines := [HeaderLine(columns), ","];
    SplitJoin(lines);
    SoundNotBlank(lines);
    assert lines[1..] == [","];
    TwoColumns(2);
  }

  /** Such a file: its third line is refused as row 2. */
  lemma ThirdLineIsRowTwo(columns: Row)
    requires IsWord(columns.category) && IsWord(columns.name) && IsWord(columns.unit) && IsWord(columns.rate)
    ensures ParseAs("\n" + Join([HeaderLine(columns), ","]), columns) == Err(BadRow(2, 2))
    ensures Split(Normalize("\n" + Join([HeaderLine(columns), ","]))) == ["", HeaderLine(columns), ","]
  {
    HeaderReadsBack(columns);
    RefusedSecondLine(columns);
    BlankLineInFront(Join([HeaderLine(columns), ","]), columns);
  }
}
