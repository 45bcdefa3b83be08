/**
 * The rows of coordinator-only tables: printed into the metadata file with a NUL byte after each, found again by
 * the byte range recorded in the table of contents, and split back apart for the restore.
 */
module QdOnlyRows {
  import opened Collections

  // The bytes of a file are modelled as characters.

  const NUL := '\0'

  /** What ends a row: a NUL byte, and a newline to keep the file readable. */
  const TERMINATOR := "\0\n"

  const HEADER_COMMENT := "-- QD-only table data: rows are NUL (\\x00) separated, not newline separated.\n"

  /** A writer, here with what has been written to it, and a count of its bytes. */
  class FileWithByteCount {
    var written: string
    var byteCount: nat

    predicate Valid()
      reads this
    {
      byteCount == |written|
    }

    constructor ()
      ensures Valid() && written == ""
    {
      written, byteCount := "", 0;
    }

    method MustPrint(s: string)
      requires Valid()
      modifies this
      ensures Valid() && written == old(written) + s
    {
      written := written + s;
      byteCount := byteCount + |s|;
    }

    method MustPrintln(s: string)
      requires Valid()
      modifies this
      ensures Valid() && written == old(written) + s + "\n"
    {
      MustPrint(s + "\n");
    }
  }

  datatype MetadataEntry = MetadataEntry(schema: string, name: string, startByte: nat, endByte: nat)

  class MetadataToc {
    var entries: seq<MetadataEntry>

    constructor ()
      ensures entries == []
    {
      entries := [];
    }

    method AddMetadataEntry(schema: string, name: string, start: nat, end: nat)
      modifies this
      ensures entries == old(entries) + [MetadataEntry(schema, name, start, end)]
    {
      entries := entries + [MetadataEntry(schema, name, start, end)];
    }
  }

  /** A table with its rows, each already the text of a list of values. */
  datatype Table = Table(schema: string, name: string, columnNames: string, overriding: string, rows: seq<string>)

  /** The text of one row, without what ends it. */
  function RowText(t: Table, row: string): string {
    t.columnNames + " " + t.overriding + "VALUES(" + row + ");"
  }

  function RowTexts(t: Table): seq<string> {
    seq(|t.rows|, i requires 0 <= i < |t.rows| => RowText(t, t.rows[i]))
  }

  /** What is printed for the first n of some rows. */
  function Terminated(texts: seq<string>, n: nat): string
    requires n <= |texts|
  {
    if n == 0 then "" else Terminated(texts, n - 1) + texts[n - 1] + TERMINATOR
  }

  /** The entry's byte range holds the printed rows of the table. */
  predicate Recorded(file: string, e: MetadataEntry, t: Table) {
    && e.schema == t.schema && e.name == t.name
    && e.startByte <= e.endByte <= |file|
    && file[e.startByte..e.endByte] == Terminated(RowTexts(t), |t.rows|)
  }

  /** Printing more leaves the bytes of every recorded range as they are. */
  lemma StaysRecorded(file: string, more: string, e: MetadataEntry, t: Table)
    requires Recorded(file, e, t)
    ensures Recorded(file + more, e, t)
  {
  }

  lemma JustPrinted(file: string, text: string)
    ensures (file + text)[|file|..|file + text|] == text
  {
  }

  /** The first n entries hold the rows of the first n tables. */
  ghost predicate AllRecorded(file: string, entries: seq<MetadataEntry>, tables: seq<Table>, n: nat)
    requires n <= |tables| && n <= |entries|
  {
    forall i | 0 <= i < n :: Recorded(file, entries[i], tables[i])
  }

  ghost predicate HasRows(tables: seq<Table>, n: nat)
    requires n <= |tables|
  {
    exists i :: 0 <= i < n && tables[i].rows != []
  }

  /** Printing every table's rows, with one comment before the first row of all, and recording where they are. */
  method BackupQDOnlyData(tables: seq<Table>, metadataFile: FileWithByteCount, toc: MetadataToc)
    requires metadataFile.Valid()
    modifies metadataFile, toc
    ensures metadataFile.Valid() && old(metadataFile.written) <= metadataFile.written
    ensures old(toc.entries) <= toc.entries && |toc.entries| == |old(toc.entries)| + |tables|
    ensures AllRecorded(metadataFile.written, toc.entries[|old(toc.entries)|..], tables, |tables|)
    ensures if HasRows(tables, |tables|) then old(metadataFile.written) + HEADER_COMMENT <= metadataFile.written
            else metadataFile.written == old(metadataFile.written)
    ensures forall i | 0 <= i < |tables| ::
              ReadsBack(metadataFile.written, toc.entries[|old(toc.entries)|..][i], tables[i])
  {
    var wroteHeaderComment := false;
    ghost var added: seq<MetadataEntry> := [];
    for i := 0 to |tables|
      invariant metadataFile.Valid() && old(metadataFile.written) <= metadataFile.written
      invariant toc.entries == old(toc.entries) + added && |added| == i
      invariant AllRecorded(metadataFile.written, added, tables, i)
      invariant wroteHeaderComment == HasRows(tables, i)
      invariant if wroteHeaderComment then old(metadataFile.written) + HEADER_COMMENT <= metadataFile.written
                else metadataFile.written == old(metadataFile.written)
    {
      ghost var before := metadataFile.written;
      if |tables[i].rows| > 0 && !wroteHeaderComment {
        metadataFile.MustPrint(HEADER_COMMENT);
        wroteHeaderComment := true;
      }
      var e := BackupRows(tables[i], metadataFile, toc);
      AllStayRecorded(before, metadataFile.written, added, tables, i, e);
      added := added + [e];
    }
    assert toc.entries[|old(toc.entries)|..] == added;
    forall i | 0 <= i < |tables|
      ensures ReadsBack(metadataFile.written, added[i], tables[i])
    {
      RecordedReadsBack(metadataFile.written, added[i], tables[i]);
    }
  }

  /** The bytes of the entry's range, split apart, are the rows of the table, each in its list of values. */
  ghost predicate ReadsBack(file: string, e: MetadataEntry, t: Table) {
    && e.startByte <= e.endByte <= |file|
    && (t.rows == [] ==> e.startByte == e.endByte)
    && (NulFree(t) && t.rows != [] ==>
          var parts := Split(TrimRight(file[e.startByte..e.endByte]));
          && |parts| == |t.rows|
          && forall i | 0 <= i < |t.rows| ::
               parts[i] == t.columnNames + " " + t.overriding + "VALUES(" + t.rows[i] + ");")
  }

  lemma RecordedReadsBack(file: string, e: MetadataEntry, t: Table)
    requires Recorded(file, e, t)
    ensures ReadsBack(file, e, t)
  {
    if t.rows == [] {
      assert file[e.startByte..e.endByte] == "";
    } else if NulFree(t) {
      RowsComeBack(file, e, t);
    }
  }

  /** Printing the rows of a table and adding its entry. */
  method BackupRows(t: Table, metadataFile: FileWithByteCount, toc: MetadataToc) returns (e: MetadataEntry)
    requires metadataFile.Valid()
    modifies metadataFile, toc
    ensures metadataFile.Valid() && old(metadataFile.written) <= metadataFile.written
    ensures toc.entries == old(toc.entries) + [e] && Recorded(metadataFile.written, e, t)
    ensures metadataFile.written == old(metadataFile.written) + Terminated(RowTexts(t), |t.rows|)
  {
    var start := metadataFile.byteCount;
    PrintRows(t, metadataFile);
    e := MetadataEntry(t.schema, t.name, start, metadataFile.byteCount);
    toc.AddMetadataEntry(t.schema, t.name, start, metadataFile.byteCount);
    JustPrinted(old(metadataFile.written), Terminated(RowTexts(t), |t.rows|));
  }

  lemma AllStayRecorded(before: string, after: string, entries: seq<MetadataEntry>, tables: seq<Table>, n: nat,
                        e: MetadataEntry)
    requires n < |tables| && n == |entries| && before <= after
    requires AllRecorded(before, entries, tables, n) && Recorded(after, e, tables[n])
    ensures AllRecorded(after, entries + [e], tables, n + 1)
  {
    assert after == before + after[|before|..];
    forall i | 0 <= i < n
      ensures Recorded(after, entries[i], tables[i])
    {
      StaysRecorded(before, after[|before|..], entries[i], tables[i]);
    }
  }

  method PrintRows(t: Table, metadataFile: FileWithByteCount)
    requires metadataFile.Valid()
    modifies metadataFile
    ensures metadataFile.Valid()
    ensures metadataFile.written == old(metadataFile.written) + Terminated(RowTexts(t), |t.rows|)
  {
    for k := 0 to |t.rows|
      invariant metadataFile.Valid()
      invariant metadataFile.written == old(metadataFile.written) + Terminated(RowTexts(t), k)
    {
      metadataFile.MustPrint(t.columnNames + " " + t.overriding + "VALUES(" + t.rows[k] + ");\0\n");
      assert RowText(t, t.rows[k]) + TERMINATOR ==
             t.columnNames + " " + t.overriding + "VALUES(" + t.rows[k] + ");\0\n";
    }
  }

  // ----- Reading back -----

  /** Reading the range of an entry from the metadata file. */
  function Statement(file: string, e: MetadataEntry): string
    requires e.startByte <= e.endByte <= |file|
  {
    file[e.startByte..e.endByte]
  }

  /** Cutting off trailing NUL bytes and newlines. */
  function TrimRight(s: string): string {
    if s != "" && (s[|s| - 1] == NUL || s[|s| - 1] == '\n') then TrimRight(s[..|s| - 1]) else s
  }

  /** Splitting at every NUL byte that a newline follows. */
  function Split(s: string): (parts: seq<string>)
    ensures parts != []
  {
    if s == "" then [""]
    else if |s| >= 2 && s[0] == NUL && s[1] == '\n' then [""] + Split(s[2..])
    else
      var rest := Split(s[1..]);
      [[s[0]] + rest[0]] + rest[1..]
  }

  /** What is cut off is NUL bytes and newlines only, and none of them is left at the end. */
  lemma {:induction false} TrimsAll(s: string)
    ensures var r := TrimRight(s);
      && r <= s && (forall i | |r| <= i < |s| :: s[i] == '\0' || s[i] == '\n')
      && (r != "" ==> r[|r| - 1] != '\0' && r[|r| - 1] != '\n')
  {
    if s != "" && (s[|s| - 1] == NUL || s[|s| - 1] == '\n') {
      TrimsAll(s[..|s| - 1]);
    }
  }

  /** Putting the separator back between the parts gives the text that was split. */
  ghost function Rejoined(parts: seq<string>): string {
    if parts == [] then "" else if |parts| == 1 then parts[0] else parts[0] + "\0\n" + Rejoined(parts[1..])
  }

  lemma RejoinedEmpty(parts: seq<string>)
    requires parts != []
    ensures Rejoined([""] + parts) == "\0\n" + Rejoined(parts)
  {
    var all := [""] + parts;
    assert all[0] == "" && all[1..] == parts;
    assert Rejoined(all) == all[0] + "\0\n" + Rejoined(all[1..]);
  }

  lemma RejoinedLonger(c: char, parts: seq<string>)
    requires parts != []
    ensures Rejoined([[c] + parts[0]] + parts[1..]) == [c] + Rejoined(parts)
  {
    var all := [[c] + parts[0]] + parts[1..];
    assert all[0] == [c] + parts[0] && all[1..] == parts[1..];
    if |parts| > 1 {
      var rest := Rejoined(parts[1..]);
      assert Rejoined(all) == ([c] + parts[0]) + "\0\n" + rest;
      Regroup([c], parts[0], "\0\n", rest);
    }
  }

  lemma Regroup(a: string, b: string, c: string, d: string)
    ensures (a + b) + c + d == a + (b + c + d)
  {
  }

  lemma {:induction false} SplitRejoins(s: string)
    ensures Rejoined(Split(s)) == s
  {
    if s != "" {
      if |s| >= 2 && s[0] == NUL && s[1] == '\n' {
        SplitRejoins(s[2..]);
        RejoinedEmpty(Split(s[2..]));
        assert s == "\0\n" + s[2..];
      } else {
        SplitRejoins(s[1..]);
        RejoinedLonger(s[0], Split(s[1..]));
        assert s == [s[0]] + s[1..];
      }
    }
  }

  function InsertPrefix(schema: string, name: string): string {
    "INSERT INTO " + schema + "." + name + " "
  }

  /** The parts one after the other with a newline between them. */
  function JoinLines(parts: seq<string>, n: nat): string
    requires n <= |parts|
  {
    if n == 0 then "" else if n == 1 then parts[0] else JoinLines(parts, n - 1) + "\n" + parts[n - 1]
  }

  function Prefixed(prefix: string, rows: seq<string>): seq<string> {
    seq(|rows|, i requires 0 <= i < |rows| => prefix + rows[i])
  }

  /** The text is the lines one after the other, with one newline between each two. */
  ghost predicate IsLines(text: string, lines: seq<string>) {
    if lines == [] then text == ""
    else if |lines| == 1 then text == lines[0]
    else lines[0] + "\n" <= text && IsLines(text[|lines[0]| + 1..], lines[1..])
  }

  lemma {:induction false} LinesSnoc(text: string, lines: seq<string>, line: string)
    requires lines != [] && IsLines(text, lines)
    ensures IsLines(text + "\n" + line, lines + [line])
  {
    var all := text + "\n" + line;
    if |lines| == 1 {
      assert (lines + [line])[1..] == [line];
      assert all[|lines[0]| + 1..] == line;
    } else {
      LinesSnoc(text[|lines[0]| + 1..], lines[1..], line);
      assert (lines + [line])[1..] == lines[1..] + [line];
      assert all[|lines[0]| + 1..] == text[|lines[0]| + 1..] + "\n" + line;
    }
  }

  lemma {:induction false} JoinedAreLines(parts: seq<string>, n: nat)
    requires n <= |parts|
    ensures IsLines(JoinLines(parts, n), parts[..n])
  {
    if n > 1 {
      JoinedAreLines(parts, n - 1);
      LinesSnoc(JoinLines(parts, n - 1), parts[..n - 1], parts[n - 1]);
      assert parts[..n] == parts[..n - 1] + [parts[n - 1]];
    }
  }

  /** The lines are inserts of the rows, in order. */
  ghost predicate AreInserts(lines: seq<string>, schema: string, name: string, rows: seq<string>) {
    && |lines| == |rows|
    && forall i | 0 <= i < |rows| :: lines[i] == "INSERT INTO " + schema + "." + name + " " + rows[i]
  }

  /** Turning what was read for a table into the statements that insert its rows. */
  method InsertStatements(statement: string, schema: string, name: string) returns (inserts: string)
    ensures inserts == if statement == "" then "" else
              var rows := Split(TrimRight(statement)); JoinLines(Prefixed(InsertPrefix(schema, name), rows), |rows|)
    ensures if statement == "" then inserts == ""
            else exists lines ::
              AreInserts(lines, schema, name, Split(TrimRight(statement))) && IsLines(inserts, lines)
  {
    if statement == "" {
      return "";
    }
    var rows := Split(TrimRight(statement));
    var prefixed := rows;
    for j := 0 to |rows|
      invariant |prefixed| == |rows|
      invariant forall k | 0 <= k < j :: prefixed[k] == InsertPrefix(schema, name) + rows[k]
      invariant forall k | j <= k < |rows| :: prefixed[k] == rows[k]
    {
      prefixed := prefixed[j := InsertPrefix(schema, name) + prefixed[j]];
    }
    assert prefixed == Prefixed(InsertPrefix(schema, name), rows);
    inserts := JoinLines(prefixed, |prefixed|);
    JoinedAreLines(prefixed, |prefixed|);
    assert prefixed[..|prefixed|] == prefixed;
    assert AreInserts(prefixed, schema, name, rows) && IsLines(inserts, prefixed);
  }

  // ----- The round trip -----

  ghost predicate NulFree(t: Table) {
    NUL !in t.columnNames && NUL !in t.overriding && forall row | row in t.rows :: NUL !in row
  }

  /** A text without NUL bytes is what is split off before the first terminator. */
  lemma {:induction false} SplitOne(text: string, rest: string)
    requires NUL !in text
    ensures Split(text + TERMINATOR + rest) == [text] + Split(rest)
  {
    var s := text + TERMINATOR + rest;
    if text == "" {
      assert s[2..] == rest;
    } else {
      SplitOne(text[1..], rest);
      assert s[1..] == text[1..] + TERMINATOR + rest;
      assert text == [text[0]] + text[1..];
    }
  }

  lemma {:induction false} SplitLast(text: string)
    requires NUL !in text
    ensures Split(text) == [text]
  {
    if text != "" {
      SplitLast(text[1..]);
      assert text == [text[0]] + text[1..];
    }
  }

  /** The texts from the n-th on, each but the last with its terminator. */
  function Separated(texts: seq<string>, n: nat): string
    requires n < |texts|
    decreases |texts| - n
  {
    if n == |texts| - 1 then texts[n] else texts[n] + TERMINATOR + Separated(texts, n + 1)
  }

  lemma {:induction false} SplitSeparated(texts: seq<string>, n: nat)
    requires n < |texts| && forall i | 0 <= i < |texts| :: NUL !in texts[i]
    ensures Split(Separated(texts, n)) == texts[n..]
    decreases |texts| - n
  {
    if n == |texts| - 1 {
      SplitLast(texts[n]);
    } else {
      SplitSeparated(texts, n + 1);
      SplitOne(texts[n], Separated(texts, n + 1));
      assert texts[n..] == [texts[n]] + texts[n + 1..];
    }
  }

  /** What is printed is the separated texts and one more terminator. */
  lemma {:induction false} PrintedIsSeparated(texts: seq<string>, n: nat)
    requires n < |texts|
    ensures Terminated(texts, |texts|) == Terminated(texts, n) + Separated(texts, n) + TERMINATOR
    decreases |texts| - n
  {
    if n < |texts| - 1 {
      PrintedIsSeparated(texts, n + 1);
      assert Terminated(texts, n + 1) + Separated(texts, n + 1) + TERMINATOR
          == Terminated(texts, n) + (texts[n] + TERMINATOR + Separated(texts, n + 1)) + TERMINATOR;
    }
  }

  lemma {:induction false} EndsInLast(texts: seq<string>, n: nat)
    requires n < |texts| && forall i | 0 <= i < |texts| :: texts[i] != "" && texts[i][|texts[i]| - 1] == ';'
    ensures Separated(texts, n) != "" && Separated(texts, n)[|Separated(texts, n)| - 1] == ';'
    decreases |texts| - n
  {
    if n < |texts| - 1 {
      EndsInLast(texts, n + 1);
    }
  }

  lemma TrimTerminator(s: string)
    requires s != "" && s[|s| - 1] == ';'
    ensures TrimRight(s + TERMINATOR) == s
  {
    assert (s + TERMINATOR)[..|s| + 1] == s + [NUL];
    assert (s + [NUL])[..|s|] == s;
    assert TrimRight(s + TERMINATOR) == TrimRight(s + [NUL]) == TrimRight(s);
  }

  lemma RowTextOK(t: Table, row: string)
    requires NulFree(t) && NUL !in row
    ensures NUL !in RowText(t, row) && RowText(t, row)[|RowText(t, row)| - 1] == ';'
  {
  }

  /** Whatever the rows contain besides NUL bytes, reading back and splitting gives the same rows in the same order. */
  lemma RowsComeBack(file: string, e: MetadataEntry, t: Table)
    requires NulFree(t) && t.rows != [] && Recorded(file, e, t)
    ensures Split(TrimRight(Statement(file, e))) == RowTexts(t)
    ensures |Split(TrimRight(Statement(file, e)))| == |t.rows|
    ensures forall i | 0 <= i < |t.rows| :: Split(TrimRight(Statement(file, e)))[i] ==
              t.columnNames + " " + t.overriding + "VALUES(" + t.rows[i] + ");"
  {
    var texts := RowTexts(t);
    forall i | 0 <= i < |texts|
      ensures NUL !in texts[i] && texts[i] != "" && texts[i][|texts[i]| - 1] == ';'
    {
      assert t.rows[i] in t.rows;
      RowTextOK(t, t.rows[i]);
    }
    PrintedIsSeparated(texts, 0);
    EndsInLast(texts, 0);
    TrimTerminator(Separated(texts, 0));
    SplitSeparated(texts, 0);
    assert Terminated(texts, |texts|) == Separated(texts, 0) + TERMINATOR;
  }

  /** Two tables that agree in everything but the rows, and whose recorded bytes are the same, have the same rows. */
  lemma BytesDetermineRows(file: string, e: MetadataEntry, t: Table, file': string, e': MetadataEntry, t': Table)
    requires NulFree(t) && NulFree(t') && t.rows != [] && t'.rows != []
    requires t.columnNames == t'.columnNames && t.overriding == t'.overriding
    requires Recorded(file, e, t) && Recorded(file', e', t')
    requires file[e.startByte..e.endByte] == file'[e'.startByte..e'.endByte]
    ensures t.rows == t'.rows
  {
    RowsComeBack(file, e, t);
    RowsComeBack(file', e', t');
    var parts, before := Split(TrimRight(Statement(file, e))), t.columnNames + " " + t.overriding + "VALUES(";
    forall i | 0 <= i < |t.rows|
      ensures t.rows[i] == t'.rows[i]
    {
      assert parts[i] == before + t.rows[i] + ");" == before + t'.rows[i] + ");";
      Between(before, t.rows[i], t'.rows[i], ");");
    }
  }

  lemma Between(before: string, middle: string, other: string, after: string)
    requires before + middle + after == before + other + after
    ensures middle == other
  {
    var whole := before + middle + after;
    assert |middle| == |other|;
    assert whole[|before|..|before| + |middle|] == middle;
    assert (before + other + after)[|before|..|before| + |other|] == other;
  }

  /** A table without rows has an empty range, for which nothing is inserted. */
  lemma NoRowsNoStatement(file: string, e: MetadataEntry, t: Table)
    requires Recorded(file, e, t)
    ensures Statement(file, e) == "" <==> t.rows == []
  {
  }
}
