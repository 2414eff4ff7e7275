// The CSV export of the audit log, and a reader for section 2 of RFC 4180 that inverts it.
module AuditCsv {
  import opened Wrappers

  // ---- the writer ----

  predicate Special(c: char) {
    c == ',' || c == '"' || c == '\n' || c == '\r'
  }

  function DoubleQuotes(s: string): string {
    if s == "" then ""
    else (if s[0] == '"' then "\"\"" else [s[0]]) + DoubleQuotes(s[1..])
  }

  function CsvField(s: string): string {
    if forall i :: 0 <= i < |s| ==> !Special(s[i]) then s
    else "\"" + DoubleQuotes(s) + "\""
  }

  // Fields separated by commas.
  function Joined(fields: seq<string>): string {
    if fields == [] then ""
    else if |fields| == 1 then CsvField(fields[0])
    else CsvField(fields[0]) + "," + Joined(fields[1..])
  }

  // Rows each ended by a line feed.
  function Text(rows: seq<seq<string>>): string {
    if rows == [] then "" else Joined(rows[0]) + "\n" + Text(rows[1..])
  }

  // ---- the reader ----

  // The rest of a quoted field: its text and what follows the closing quote.
  function ReadQuoted(t: string): (r: Option<(string, string)>)
    ensures r.Some? ==> |r.value.1| < |t|
  {
    if t == "" then None
    else if t[0] == '"' then
      if |t| > 1 && t[1] == '"' then
        match ReadQuoted(t[2..])
        case None => None
        case Some((s, rest)) => Some(("\"" + s, rest))
      else Some(("", t[1..]))
    else
      match ReadQuoted(t[1..])
      case None => None
      case Some((s, rest)) => Some(([t[0]] + s, rest))
  }

  // An unquoted field runs up to a comma, a line feed or the end, and holds no quote or return.
  function ReadPlain(t: string): (r: Option<(string, string)>)
    ensures r.Some? ==> |r.value.1| <= |t|
  {
    if t == "" || t[0] == ',' || t[0] == '\n' then Some(("", t))
    else if Special(t[0]) then None
    else
      match ReadPlain(t[1..])
      case None => None
      case Some((s, rest)) => Some(([t[0]] + s, rest))
  }

  function ReadField(t: string): (r: Option<(string, string)>)
    ensures r.Some? ==> |r.value.1| <= |t|
  {
    if t != "" && t[0] == '"' then ReadQuoted(t[1..]) else ReadPlain(t)
  }

  // A row: its fields and what follows its line feed.
  function ReadRow(t: string): (r: Option<(seq<string>, string)>)
    ensures r.Some? ==> |r.value.1| < |t|
    decreases |t|
  {
    match ReadField(t)
    case None => None
    case Some((field, rest)) =>
      if rest == "" then None
      else if rest[0] == '\n' then Some(([field], rest[1..]))
      else if rest[0] == ',' then
        match ReadRow(rest[1..])
        case None => None
        case Some((fields, rest')) => Some(([field] + fields, rest'))
      else None
  }

  function ReadText(t: string): Option<seq<seq<string>>>
    decreases |t|
  {
    if t == "" then Some([])
    else
      match ReadRow(t)
      case None => None
      case Some((row, rest)) =>
        match ReadText(rest)
        case None => None
        case Some(rows) => Some([row] + rows)
  }

  // ---- the reader inverts the writer ----

  lemma {:induction false} QuotedReadsBack(s: string, rest: string)
    requires rest == "" || rest[0] != '"'
    ensures ReadQuoted(DoubleQuotes(s) + ("\"" + rest)) == Some((s, rest))
  {
    var t := DoubleQuotes(s) + ("\"" + rest);
    if s == "" {
      assert t == "\"" + rest;
    } else {
      QuotedReadsBack(s[1..], rest);
      var tail := DoubleQuotes(s[1..]) + ("\"" + rest);
      assert s == [s[0]] + s[1..];
      if s[0] == '"' {
        assert t == "\"\"" + tail;
      } else {
        assert t == [s[0]] + tail;
      }
    }
  }

  lemma {:induction false} PlainReadsBack(s: string, rest: string)
    requires forall i :: 0 <= i < |s| ==> !Special(s[i])
    requires rest == "" || rest[0] == ',' || rest[0] == '\n'
    ensures ReadPlain(s + rest) == Some((s, rest))
  {
    if s == "" {
      assert s + rest == rest;
    } else {
      PlainReadsBack(s[1..], rest);
      assert (s + rest)[1..] == s[1..] + rest;
      assert s == [s[0]] + s[1..];
    }
  }

  lemma PlainFieldReadsBack(s: string, rest: string)
    requires forall i :: 0 <= i < |s| ==> !Special(s[i])
    requires rest != "" && (rest[0] == ',' || rest[0] == '\n')
    ensures ReadField(s + rest) == Some((s, rest))
  {
    PlainReadsBack(s, rest);
    if s == "" {
      assert s + rest == rest;
    } else {
      assert (s + rest)[0] == s[0];
    }
  }

  lemma QuotedFieldReadsBack(s: string, rest: string)
    requires rest != "" && (rest[0] == ',' || rest[0] == '\n')
    ensures ReadField("\"" + DoubleQuotes(s) + "\"" + rest) == Some((s, rest))
  {
    var t := DoubleQuotes(s) + ("\"" + rest);
    QuotedReadsBack(s, rest);
    assert "\"" + DoubleQuotes(s) + "\"" + rest == "\"" + t;
    assert ("\"" + t)[1..] == t;
  }

  lemma {:induction false} DoublingGrows(s: string)
    ensures |DoubleQuotes(s)| >= |s|
  {
    if s != "" {
      DoublingGrows(s[1..]);
    }
  }

  // Only what needs quotes is quoted.
  lemma PlainIff(s: string)
    ensures CsvField(s) == s <==> ',' !in s && '"' !in s && '\n' !in s && '\r' !in s
  {
    DoublingGrows(s);
    if exists i :: 0 <= i < |s| && Special(s[i]) {
      var i :| 0 <= i < |s| && Special(s[i]);
      assert s[i] in s && s[i] in {',', '"', '\n', '\r'};
      assert |CsvField(s)| > |s|;
    }
  }

  lemma FieldReadsBack(s: string, rest: string)
    requires rest != "" && (rest[0] == ',' || rest[0] == '\n')
    ensures ReadField(CsvField(s) + rest) == Some((s, rest))
  {
    if forall i :: 0 <= i < |s| ==> !Special(s[i]) {
      PlainFieldReadsBack(s, rest);
    } else {
      QuotedFieldReadsBack(s, rest);
    }
  }

  lemma LastField(t: string, field: string, rest: string)
    requires ReadField(t) == Some((field, rest)) && rest != "" && rest[0] == '\n'
    ensures ReadRow(t) == Some(([field], rest[1..]))
  {
  }

  lemma NextField(t: string, field: string, rest: string, fields: seq<string>, rest': string)
    requires ReadField(t) == Some((field, rest)) && rest != "" && rest[0] == ','
    requires ReadRow(rest[1..]) == Some((fields, rest'))
    ensures ReadRow(t) == Some(([field] + fields, rest'))
  {
  }

  lemma Regroup(a: string, b: string, c: string, d: string, e: string)
    requires |b| == 1
    ensures a + b + c == a + (b + c)
    ensures a + b + c + d + e == a + (b + (c + d + e))
    ensures (b + (c + d + e))[1..] == c + d + e
    ensures (b + c)[1..] == c
  {
  }

  lemma {:induction false} RowReadsBack(fields: seq<string>, rest: string)
    requires fields != []
    ensures ReadRow(Joined(fields) + "\n" + rest) == Some((fields, rest))
  {
    var t := Joined(fields) + "\n" + rest;
    if |fields| == 1 {
      FieldReadsBack(fields[0], "\n" + rest);
      Regroup(CsvField(fields[0]), "\n", rest, "", "");
      LastField(t, fields[0], "\n" + rest);
      assert fields == [fields[0]];
    } else {
      var tail := Joined(fields[1..]) + "\n" + rest;
      RowReadsBack(fields[1..], rest);
      FieldReadsBack(fields[0], "," + tail);
      Regroup(CsvField(fields[0]), ",", Joined(fields[1..]), "\n", rest);
      NextField(t, fields[0], "," + tail, fields[1..], rest);
      assert fields == [fields[0]] + fields[1..];
    }
  }

  lemma NextRow(t: string, row: seq<string>, rest: string, rows: seq<seq<string>>)
    requires t != "" && ReadRow(t) == Some((row, rest)) && ReadText(rest) == Some(rows)
    ensures ReadText(t) == Some([row] + rows)
  {
  }

  // Every list of non-empty rows of arbitrary strings is read back exactly.
  lemma {:induction false} TextReadsBack(rows: seq<seq<string>>)
    requires forall i :: 0 <= i < |rows| ==> rows[i] != []
    ensures ReadText(Text(rows)) == Some(rows)
  {
    if rows != [] {
      var rest := Text(rows[1..]);
      var t := Joined(rows[0]) + "\n" + rest;
      assert Text(rows) == t;
      RowReadsBack(rows[0], rest);
      assert ReadText(rest) == Some(rows[1..]) by { TextReadsBack(rows[1..]); }
      NextRow(t, rows[0], rest, rows[1..]);
      assert rows == [rows[0]] + rows[1..];
    }
  }

  // ---- the export ----

  datatype AuditEvent = AuditEvent(
    createdUnix: int, action: string, actorKind: string, userID: int, tenantID: int, format: string,
    package: string, version: string, decision: string, reason: string, requestID: string, remoteAddr: string)

  const HEADER := ["created_unix", "action", "actor_kind", "actor_user_id", "tenant_id", "format",
    "package", "version", "decision", "reason", "request_id", "remote_addr"]

  // The columns of one event; `decimal` renders numbers.
  function Columns(e: AuditEvent, decimal: int -> string): seq<string> {
    [decimal(e.createdUnix), e.action, e.actorKind, decimal(e.userID), decimal(e.tenantID), e.format,
     e.package, e.version, e.decision, e.reason, e.requestID, e.remoteAddr]
  }

  function Rows(events: seq<AuditEvent>, decimal: int -> string): seq<seq<string>> {
    seq(|events|, i requires 0 <= i < |events| => Columns(events[i], decimal))
  }

  lemma {:induction false} JoinedSplit(a: seq<string>, b: seq<string>)
    requires a != [] && b != []
    ensures Joined(a + b) == Joined(a) + "," + Joined(b)
  {
    if |a| == 1 {
      assert (a + b)[1..] == b;
    } else {
      assert (a + b)[1..] == a[1..] + b;
      JoinedSplit(a[1..], b);
    }
  }

  lemma {:induction false} TextSplit(a: seq<seq<string>>, b: seq<seq<string>>)
    ensures Text(a + b) == Text(a) + Text(b)
  {
    if a == [] {
      assert a + b == b;
    } else {
      assert (a + b)[1..] == a[1..] + b;
      TextSplit(a[1..], b);
    }
  }

  method CsvJoin(fields: seq<string>) returns (row: string)
    ensures row == Joined(fields)
  {
    row := "";
    for i := 0 to |fields|
      invariant row == Joined(fields[..i])
    {
      var part := CsvField(fields[i]);
      if i > 0 {
        JoinedSplit(fields[..i], [fields[i]]);
        row := row + ",";
      }
      assert fields[..i + 1] == fields[..i] + [fields[i]];
      row := row + part;
    }
    assert fields[..|fields|] == fields;
  }

  lemma TextOfNextRow(rows: seq<seq<string>>, i: nat)
    requires i < |rows|
    ensures Text(rows[..i + 1]) == Text(rows[..i]) + Joined(rows[i]) + "\n"
  {
    assert rows[..i + 1] == rows[..i] + [rows[i]];
    TextSplit(rows[..i], [rows[i]]);
    assert Text([rows[i]]) == Joined(rows[i]) + "\n" + Text([]);
    assert Text(rows[..i]) + (Joined(rows[i]) + "\n") == Text(rows[..i]) + Joined(rows[i]) + "\n";
  }

  // The loop of the export: one row of columns per event, each ended by a line feed.
  method WriteRows(events: seq<AuditEvent>, decimal: int -> string) returns (out: string)
    ensures out == Text(Rows(events, decimal))
  {
    out := "";
    ghost var all := Rows(events, decimal);
    for i := 0 to |events|
      invariant out == Text(all[..i])
    {
      var row := CsvJoin(Columns(events[i], decimal));
      TextOfNextRow(all, i);
      out := out + row;
      out := out + "\n";
    }
    assert all[..|events|] == all;
  }

  // The exported text: the header and one row of columns per event.
  function Export(events: seq<AuditEvent>, decimal: int -> string): string {
    Joined(HEADER) + "\n" + Text(Rows(events, decimal))
  }

  lemma ExportReadsBack(events: seq<AuditEvent>, decimal: int -> string)
    ensures ReadText(Export(events, decimal)) == Some([HEADER] + Rows(events, decimal))
  {
    var rows := Rows(events, decimal);
    TextReadsBack([HEADER] + rows);
    assert ([HEADER] + rows)[1..] == rows;
  }

  // A row with the name of each column beside its value.
  function Labelled(header: seq<string>, row: seq<string>): seq<(string, string)> {
    seq(if |header| <= |row| then |header| else |row|,
        i requires 0 <= i < |header| && i < |row| => (header[i], row[i]))
  }

  // What each column of an event's row is called and holds.
  function Values(e: AuditEvent, decimal: int -> string): seq<(string, string)> {
    [("created_unix", decimal(e.createdUnix)), ("action", e.action), ("actor_kind", e.actorKind),
     ("actor_user_id", decimal(e.userID)), ("tenant_id", decimal(e.tenantID)), ("format", e.format),
     ("package", e.package), ("version", e.version), ("decision", e.decision), ("reason", e.reason),
     ("request_id", e.requestID), ("remote_addr", e.remoteAddr)]
  }

  lemma ColumnsAreLabelled(e: AuditEvent, decimal: int -> string)
    ensures Labelled(HEADER, Columns(e, decimal)) == Values(e, decimal)
  {
  }

  lemma RowsBehind(header: seq<string>, rows: seq<seq<string>>, i: nat)
    requires i < |rows|
    ensures var table := [header] + rows; table[0] == header && table[i + 1] == rows[i]
  {
  }

  // In what is read back, each event's values stand in order under the names of their columns.
  lemma ValuesStandUnderTheirNames(events: seq<AuditEvent>, decimal: int -> string, i: nat)
    requires i < |events|
    ensures var read := ReadText(Export(events, decimal));
      && read.Some? && |read.value| == |events| + 1
      && Labelled(read.value[0], read.value[i + 1]) == Values(events[i], decimal)
  {
    ExportReadsBack(events, decimal);
    RowsBehind(HEADER, Rows(events, decimal), i);
    ColumnsAreLabelled(events[i], decimal);
  }

  method AuditExportCSV(events: seq<AuditEvent>, decimal: int -> string) returns (out: string)
    ensures out == Export(events, decimal)
    ensures ReadText(out) == Some([HEADER] + Rows(events, decimal))
  {
    var rows := WriteRows(events, decimal);
    var header := CsvJoin(HEADER);   // a literal in the source
    out := header + "\n" + rows;
    ExportReadsBack(events, decimal);
  }

  lemma ColumnsDetermineEvent(x: AuditEvent, y: AuditEvent, decimal: int -> string)
    requires forall m, n :: decimal(m) == decimal(n) ==> m == n
    requires Columns(x, decimal) == Columns(y, decimal)
    ensures x == y
  {
    var a, b := Columns(x, decimal), Columns(y, decimal);
    assert a[0] == b[0] && a[1] == b[1] && a[2] == b[2] && a[3] == b[3] && a[4] == b[4] && a[5] == b[5];
    assert a[6] == b[6] && a[7] == b[7] && a[8] == b[8] && a[9] == b[9] && a[10] == b[10] && a[11] == b[11];
  }

  // Different lists of events have different exports, as long as numbers are rendered distinctly.
  lemma ExportDeterminesEvents(a: seq<AuditEvent>, b: seq<AuditEvent>, decimal: int -> string)
    requires forall m, n :: decimal(m) == decimal(n) ==> m == n
    ensures Export(a, decimal) == Export(b, decimal) <==> a == b
  {
    if Export(a, decimal) == Export(b, decimal) {
      ExportReadsBack(a, decimal);
      ExportReadsBack(b, decimal);
      var r, q := Rows(a, decimal), Rows(b, decimal);
      assert ([HEADER] + r)[1..] == r && ([HEADER] + q)[1..] == q;
      RowsDetermineEvents(a, b, decimal);
    }
  }

  lemma RowsDetermineEvents(a: seq<AuditEvent>, b: seq<AuditEvent>, decimal: int -> string)
    requires forall m, n :: decimal(m) == decimal(n) ==> m == n
    requires Rows(a, decimal) == Rows(b, decimal)
    ensures a == b
  {
    assert |a| == |Rows(a, decimal)| == |Rows(b, decimal)| == |b|;
    forall i | 0 <= i < |a|
      ensures a[i] == b[i]
    {
      assert Rows(a, decimal)[i] == Columns(a[i], decimal) && Rows(b, decimal)[i] == Columns(b[i], decimal);
      ColumnsDetermineEvent(a[i], b[i], decimal);
    }
  }
}
