/**
 * The per-line rule shared by both CSV parsers and the row list it builds:
 * a data line gives a row when it has at least ten comma-separated fields and
 * its trimmed first field is a 32-bit integer; otherwise it is skipped.
 */
module CsvRows {
  import opened Optional
  import opened Text
  import opened Int32Text
  import opened DialogueRecord

  /** The number of columns a row needs. */
  const FieldCount: nat := 10

  function TrimAll(fields: seq<string>): (r: seq<string>)
    ensures |r| == |fields|
    ensures forall i :: 0 <= i < |r| ==> r[i] == Trim(fields[i])
  {
    seq(|fields|, i requires 0 <= i < |fields| => Trim(fields[i]))
  }

  /** Trims every entry of a split line's field array in place; both parsers do this before reading it. */
  method TrimFields(fields: array<string>)
    modifies fields
    ensures fields[..] == TrimAll(old(fields[..]))
  {
    for j := 0 to fields.Length
      invariant forall k :: 0 <= k < j ==> fields[k] == Trim(old(fields[k]))
      invariant forall k :: j <= k < fields.Length ==> fields[k] == old(fields[k])
    {
      fields[j] := Trim(fields[j]);
    }
  }

  /** The record built from fields 0..9 in sheet order; later fields are not read. */
  function RowOf(id: int, fields: seq<string>): DialogueData
    requires |fields| >= FieldCount
  {
    DialogueData(id, fields[1], fields[2], fields[3], fields[4], fields[5],
                 fields[6], fields[7], fields[8], fields[9])
  }

  /** The record built from the trimmed fields 1..9 of a split line. */
  function TrimmedRow(id: int, raw: seq<string>): DialogueData
    requires |raw| >= FieldCount
  {
    DialogueData(id, Trim(raw[1]), Trim(raw[2]), Trim(raw[3]), Trim(raw[4]), Trim(raw[5]),
                 Trim(raw[6]), Trim(raw[7]), Trim(raw[8]), Trim(raw[9]))
  }

  /** Trimming the whole field array in place and then reading it builds the same record. */
  lemma {:induction false} RowOfTrimAll(id: int, raw: seq<string>)
    requires |raw| >= FieldCount
    ensures RowOf(id, TrimAll(raw)) == TrimmedRow(id, raw)
  {
  }

  /** The row rule read off the trimmed field array, as the parsing loops read it. */
  function RowOfTrimmed(trimmed: seq<string>): Option<DialogueData> {
    if |trimmed| < FieldCount then None
    else
      match ParseInt32(trimmed[0])
      case None => None
      case Some(id) => Some(RowOf(id, trimmed))
  }

  /** What one data line contributes: its row, or nothing when it is skipped. */
  function LineRow(line: string): (r: Option<DialogueData>)
    ensures r.Some? ==> InInt32(r.value.id)
  {
    var raw := Split(line, {','});
    if |raw| < FieldCount then None
    else
      match ParseInt32(Trim(raw[0]))
      case None => None
      case Some(id) => Some(TrimmedRow(id, raw))
  }

  /**
   * A line yields a row exactly when it holds at least nine commas and its
   * first field parses as a 32-bit integer (parsing trims, so trimming the
   * field first changes nothing).
   */
  lemma {:induction false} LineRowAccepts(line: string)
    ensures LineRow(line).Some? <==>
      CountIn(line, {','}) >= FieldCount - 1 && ParseInt32(Split(line, {','})[0]).Some?
    ensures LineRow(line).Some? ==> InInt32(LineRow(line).value.id)
    ensures LineRow(line).Some? ==>
      var raw := Split(line, {','});
      |raw| >= FieldCount && LineRow(line).value == TrimmedRow(ParseInt32(raw[0]).value, raw)
  {
    var raw := Split(line, {','});
    if |raw| < FieldCount {
      assert LineRow(line) == None;
    } else {
      ParseIgnoresTrim(raw[0]);
      match ParseInt32(raw[0])
      case None =>
        assert LineRow(line) == None;
      case Some(id) =>
        assert LineRow(line) == Some(TrimmedRow(id, raw));
    }
  }

  /** Reading the in-place trimmed fields applies the line's row rule. */
  lemma {:induction false} LineRowByFields(line: string)
    ensures LineRow(line) == RowOfTrimmed(TrimAll(Split(line, {','})))
  {
    var raw := Split(line, {','});
    var trimmed := TrimAll(raw);
    if |raw| >= FieldCount {
      assert trimmed[0] == Trim(raw[0]);
      match ParseInt32(Trim(raw[0]))
      case None =>
        assert RowOfTrimmed(trimmed) == None;
      case Some(id) =>
        RowOfTrimAll(id, raw);
        assert RowOfTrimmed(trimmed) == Some(RowOf(id, trimmed));
    }
  }

  /**
   * The body of both parsing loops for one data line: split at commas, give
   * up below ten fields, trim the field array in place, give up unless the
   * first field parses, and build the record from fields 0..9.
   */
  method ParseLine(line: string) returns (row: Option<DialogueData>)
    ensures row == LineRow(line)
  {
    var raw := Split(line, {','});
    if |raw| < FieldCount {
      return None;
    }
    var fields := new string[|raw|](k requires 0 <= k < |raw| => raw[k]);
    assert fields[..] == raw;
    TrimFields(fields);
    LineRowByFields(line);
    var parsed := ParseInt32(fields[0]);
    if parsed.None? {
      return None;
    }
    row := Some(RowOf(parsed.value, fields[..]));
  }

  /** A text column as every parsed row holds it: trimmed, and free of commas. */
  predicate CleanField(f: string) {
    IsTrimmed(f) && ',' !in f
  }

  lemma {:induction false} TrimmedFieldClean(part: string)
    requires ',' !in part
    ensures CleanField(Trim(part))
  {
    if ',' in Trim(part) {
      TrimKeepsChars(part, ',');
    }
  }

  /** Every text column of a parsed row is trimmed and holds no comma. */
  lemma {:induction false} LineRowFieldsClean(line: string)
    requires LineRow(line).Some?
    ensures var r := LineRow(line).value;
      && CleanField(r.command) && CleanField(r.characterSide) && CleanField(r.characterKey)
      && CleanField(r.loadMode) && CleanField(r.highlight) && CleanField(r.bg)
      && CleanField(r.cg) && CleanField(r.name) && CleanField(r.dialogue)
  {
    var raw := Split(line, {','});
    var id := ParseInt32(Trim(raw[0])).value;
    assert LineRow(line).value == TrimmedRow(id, raw);
    forall j | 1 <= j < FieldCount ensures CleanField(Trim(raw[j])) {
      TrimmedFieldClean(raw[j]);
    }
  }

  /** Regroups a concatenation of row lists; it only helps the solver. */
  lemma {:induction false} RowsAssoc(a: seq<DialogueData>, b: seq<DialogueData>, c: seq<DialogueData>)
    ensures a + b + c == a + (b + c)
  {
  }

  /** A line's contribution as a list of zero or one rows. */
  function Kept(r: Option<DialogueData>): (rows: seq<DialogueData>)
    ensures |rows| <= 1
  {
    match r
    case None => []
    case Some(row) => [row]
  }

  /**
   * The rows that `rule` keeps from a sequence of data lines, in line order.
   * The parsers use `LineRow` as the rule; the list lemmas below hold for any rule.
   */
  function Collect(lines: seq<string>, rule: string -> Option<DialogueData>): (rows: seq<DialogueData>)
    ensures |rows| <= |lines|
  {
    if lines == [] then [] else Kept(rule(lines[0])) + Collect(lines[1..], rule)
  }

  /** The rows the LF-only parser of `DialogueManager` produces: every line after the first. */
  function ManagerRows(csv: string): (rows: seq<DialogueData>)
    ensures |rows| <= |Split(csv, {'\n'})| - 1
  {
    Collect(Split(csv, {'\n'})[1..], LineRow)
  }

  /** The rows the CR/LF parser of `DialogueDataService` produces: every non-empty line after the first. */
  function ServiceRows(csv: string): (rows: seq<DialogueData>)
    ensures |NonEmptyLines(csv)| <= 1 ==> rows == []
    ensures |NonEmptyLines(csv)| > 1 ==> |rows| <= |NonEmptyLines(csv)| - 1
  {
    var lines := NonEmptyLines(csv);
    if lines == [] then [] else Collect(lines[1..], LineRow)
  }

  // ---------------------------------------------------------------- lemmas

  /** A blank line never yields a row (the explicit blank check is redundant). */
  lemma {:induction false} BlankLineSkipped(line: string)
    requires IsBlank(line)
    ensures LineRow(line) == None
  {
    NoSeparatorNoCount(line, {','});
  }

  /** Appending a line appends exactly that line's row, if any: rows keep line order. */
  lemma {:induction false} CollectAppend(lines: seq<string>, line: string, rule: string -> Option<DialogueData>)
    ensures Collect(lines + [line], rule) == Collect(lines, rule) + Kept(rule(line))
  {
    if lines != [] {
      assert (lines + [line])[1..] == lines[1..] + [line];
      CollectAppend(lines[1..], line, rule);
    } else {
      assert [line][1..] == [];
    }
  }

  /** One more line of a parsing loop: the rows of lines 1..i+1 extend those of lines 1..i by line i's row. */
  lemma {:induction false} CollectStep(lines: seq<string>, i: nat, rule: string -> Option<DialogueData>)
    requires 1 <= i < |lines|
    ensures Collect(lines[1..i + 1], rule) == Collect(lines[1..i], rule) + Kept(rule(lines[i]))
  {
    assert lines[1..i + 1] == lines[1..i] + [lines[i]];
    CollectAppend(lines[1..i], lines[i], rule);
  }

  /** The loop step of a parser that appends each line's row to a list that started as `start`. */
  lemma {:induction false} CollectStepFrom(start: seq<DialogueData>, lines: seq<string>, i: nat, row: Option<DialogueData>)
    requires 1 <= i < |lines| && row == LineRow(lines[i])
    ensures start + Collect(lines[1..i + 1], LineRow) == start + Collect(lines[1..i], LineRow) + Kept(row)
  {
    CollectStep(lines, i, LineRow);
    RowsAssoc(start, Collect(lines[1..i], LineRow), Kept(row));
  }

  lemma {:induction false} CollectConcat(a: seq<string>, b: seq<string>, rule: string -> Option<DialogueData>)
    ensures Collect(a + b, rule) == Collect(a, rule) + Collect(b, rule)
  {
    if a == [] {
      assert a + b == b;
    } else {
      assert (a + b)[1..] == a[1..] + b;
      CollectConcat(a[1..], b, rule);
    }
  }

  /**
   * The rows of all lines are the rows of the lines before line k, then line
   * k's own row if it has one, then the rows of the lines after it.
   */
  lemma {:induction false} CollectAround(lines: seq<string>, k: nat, rule: string -> Option<DialogueData>)
    requires k < |lines|
    ensures Collect(lines, rule) == Collect(lines[..k], rule) + Kept(rule(lines[k])) + Collect(lines[k + 1..], rule)
  {
    assert lines == lines[..k] + [lines[k]] + lines[k + 1..];
    CollectConcat(lines[..k] + [lines[k]], lines[k + 1..], rule);
    CollectAppend(lines[..k], lines[k], rule);
  }

  /** A rule that keeps nothing from an empty line is unaffected by dropping empty lines. */
  lemma {:induction false} CollectRemoveEmpty(lines: seq<string>, rule: string -> Option<DialogueData>)
    requires rule([]) == None
    ensures Collect(RemoveEmpty(lines), rule) == Collect(lines, rule)
  {
    if lines != [] {
      var rest := RemoveEmpty(lines[1..]);
      CollectRemoveEmpty(lines[1..], rule);
      RemoveEmptyCons(lines[0], lines[1..]);
      assert lines == [lines[0]] + lines[1..];
      assert Collect(lines, rule) == Kept(rule(lines[0])) + Collect(lines[1..], rule);
      if lines[0] != [] {
        assert ([lines[0]] + rest)[0] == lines[0];
        assert ([lines[0]] + rest)[1..] == rest;
        assert Collect([lines[0]] + rest, rule) == Kept(rule(lines[0])) + Collect(rest, rule);
      } else {
        assert rule(lines[0]) == None;
        assert RemoveEmpty(lines) == rest;
      }
    }
  }

  /** Ten or more comma-free fields joined by commas give the row of their trimmed first ten. */
  lemma {:induction false} RowOfJoinedFields(fields: seq<string>)
    requires |fields| >= FieldCount && FreeOf(fields, ',')
    ensures LineRow(Join(fields, ',')) ==
      match ParseInt32(fields[0])
      case None => None
      case Some(id) =>
        Some(DialogueData(id, Trim(fields[1]), Trim(fields[2]), Trim(fields[3]), Trim(fields[4]),
                          Trim(fields[5]), Trim(fields[6]), Trim(fields[7]), Trim(fields[8]), Trim(fields[9])))
  {
    SplitJoin(fields, ',');
    ParseIgnoresTrim(fields[0]);
  }

  /** Fewer than ten fields (fewer than nine commas) and the line is skipped. */
  lemma {:induction false} ShortLineSkipped(fields: seq<string>)
    requires 1 <= |fields| < FieldCount && FreeOf(fields, ',')
    ensures LineRow(Join(fields, ',')) == None
  {
    SplitJoin(fields, ',');
  }

  /** The header line is never read: its contents do not affect the rows. */
  lemma {:induction false} ManagerHeaderIgnored(header: string, body: string)
    requires '\n' !in header
    ensures ManagerRows(header + "\n" + body) == Collect(Split(body, {'\n'}), LineRow)
  {
    SplitAtSeparator(header, '\n', body, {'\n'});
    SplitJoin([header], '\n');
  }

  /**
   * For the CR/LF parser the header is the first non-empty line: empty lines
   * before it are dropped, and the header itself never produces a row.
   */
  lemma {:induction false} ServiceHeaderIgnored(lead: string, header: string, body: string)
    requires forall c :: c in lead ==> c in LineBreaks
    requires header != [] && '\n' !in header && '\r' !in header
    ensures ServiceRows(lead + header + "\n" + body) == Collect(NonEmptyLines(body), LineRow)
  {
    LeadingBreaksDropped(lead, header + "\n" + body);
    assert lead + header + "\n" + body == lead + (header + "\n" + body);
    HeaderFirst(header, body);
  }

  lemma {:induction false} HeaderFirst(header: string, body: string)
    requires header != [] && '\n' !in header && '\r' !in header
    ensures NonEmptyLines(header + "\n" + body) == [header] + NonEmptyLines(body)
  {
    SplitAtSeparator(header, '\n', body, LineBreaks);
    SplitPrefixPart(header, [], LineBreaks);
    assert header + [] == header;
    var parts := Split(header, LineBreaks) + Split(body, LineBreaks);
    assert parts == [header] + Split(body, LineBreaks);
    RemoveEmptyCons(header, Split(body, LineBreaks));
  }

  /** LF and CRLF files give the same rows to the CR/LF parser. */
  lemma {:induction false} ServiceCrlfSameRows(csv: string)
    ensures ServiceRows(ToCrlf(csv)) == ServiceRows(csv)
  {
    CrlfSameLines(csv);
  }

  /**
   * On a file without CR whose first line is not empty the two parsers agree:
   * dropping empty lines only removes lines that give no row.
   */
  lemma {:induction false} ParsersAgreeWithoutCr(csv: string)
    requires '\r' !in csv && Split(csv, {'\n'})[0] != []
    ensures ServiceRows(csv) == ManagerRows(csv)
  {
    var lines := Split(csv, {'\n'});
    SplitWithoutCr(csv);
    assert lines == [lines[0]] + lines[1..];
    RemoveEmptyCons(lines[0], lines[1..]);
    BlankLineSkipped([]);
    CollectRemoveEmpty(lines[1..], LineRow);
  }
}
