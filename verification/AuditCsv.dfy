/** CSV export of audit rows, and a reader for it: reading back what was rendered
    returns the header and every cell, whatever the cells hold. */
module AuditCsv {
  import opened Types
  import opened Keys
  import opened Audit

  // --- Writing ---

  predicate Special(c: char) {
    c == ',' || c == '"' || c == '\n' || c == '\r'
  }

  predicate NeedsQuotes(s: string) {
    exists i | 0 <= i < |s| :: Special(s[i])
  }

  function Doubled(s: string): string {
    if s == "" then ""
    else Doubled(s[..|s| - 1]) + (if s[|s| - 1] == '"' then ['"', '"'] else [s[|s| - 1]])
  }

  function FieldText(s: string): string {
    if NeedsQuotes(s) then ['"'] + Doubled(s) + ['"'] else s
  }

  function RecordText(cells: seq<string>): string {
    if cells == [] then ""
    else if |cells| == 1 then FieldText(cells[0])
    else RecordText(cells[..|cells| - 1]) + [','] + FieldText(cells[|cells| - 1])
  }

  function TableText(records: seq<seq<string>>): string {
    if records == [] then "" else TableText(records[..|records| - 1]) + RecordText(records[|records| - 1]) + ['\n']
  }

  function OrEmpty(s: Option<string>): string {
    if s.Some? then s.value else ""
  }

  function Number(n: Option<nat>): string {
    if n.Some? then Decimal(n.value) else ""
  }

  function Joined(roles: seq<string>): string {
    if roles == [] then ""
    else if |roles| == 1 then roles[0]
    else Joined(roles[..|roles| - 1]) + ";" + roles[|roles| - 1]
  }

  /** The 14 cells of a row. */
  function Cells(r: Row): (cells: seq<string>)
    ensures |cells| == 14
  {
    var e := r.event;
    [Decimal(r.seqNo), Decimal(e.ts), OrEmpty(e.subject), if e.decision.Allow? then "allow" else "deny",
     OrEmpty(e.reason), OrEmpty(e.action), OrEmpty(e.cluster), OrEmpty(e.verb), OrEmpty(e.path),
     Number(e.status), Number(e.latencyMs),
     if e.required.Some? then e.required.value.action else "",
     if e.required.Some? then e.required.value.target else "",
     Joined(e.grantedRoles)]
  }

  const HEADER: seq<string> :=
    ["seq", "ts", "subject", "decision", "reason", "action", "cluster", "method", "path", "status",
     "latency_ms", "required_action", "required_target", "granted_roles"]

  function CommaJoined(names: seq<string>): string {
    if names == [] then ""
    else if |names| == 1 then names[0]
    else CommaJoined(names[..|names| - 1]) + [','] + names[|names| - 1]
  }

  /** The fixed first line: the names as they are, with commas between. */
  function HeaderLine(): string {
    CommaJoined(HEADER) + ['\n']
  }

  function Body(rows: seq<Row>): seq<seq<string>> {
    seq(|rows|, i requires 0 <= i < |rows| => Cells(rows[i]))
  }

  /** The text buffer the export pushes into. */
  class CsvWriter {
    var out: string

    constructor ()
      ensures out == ""
    {
      out := "";
    }

    static method HasSpecial(value: string) returns (special: bool)
      ensures special <==> NeedsQuotes(value)
    {
      for i := 0 to |value|
        invariant forall j | 0 <= j < i :: !Special(value[j])
      {
        if Special(value[i]) {
          return true;
        }
      }
      return false;
    }

    method Field(value: string)
      modifies this
      ensures out == old(out) + FieldText(value)
    {
      var special := HasSpecial(value);
      if special {
        out := out + ['"'];
        for i := 0 to |value|
          invariant out == old(out) + (['"'] + Doubled(value[..i]))
        {
          assert value[..i + 1][..i] == value[..i];
          if value[i] == '"' {
            out := out + ['"'];
          }
          out := out + [value[i]];
        }
        assert value[..|value|] == value;
        out := out + ['"'];
      } else {
        out := out + value;
      }
    }

    method Record(cells: seq<string>)
      modifies this
      ensures out == old(out) + RecordText(cells) + ['\n']
    {
      for i := 0 to |cells|
        invariant out == old(out) + RecordText(cells[..i])
      {
        assert cells[..i + 1][..i] == cells[..i];
        if i > 0 {
          out := out + [','];
        }
        Field(cells[i]);
      }
      assert cells[..|cells|] == cells;
      out := out + ['\n'];
    }

    method Records(rows: seq<Row>)
      modifies this
      ensures out == old(out) + TableText(Body(rows))
    {
      for i := 0 to |rows|
        invariant out == old(out) + TableText(Body(rows[..i]))
      {
        BodyGrows(rows, i);
        Regroup(old(out), TableText(Body(rows[..i])), RecordText(Cells(rows[i])), ['\n']);
        Record(Cells(rows[i]));
      }
      assert rows[..|rows|] == rows;
    }

    method Render(rows: seq<Row>)
      modifies this
      ensures out == HeaderLine() + TableText(Body(rows))
    {
      out := HeaderLine();
      Records(rows);
    }
  }

  lemma Regroup(a: string, b: string, c: string, d: string)
    ensures a + b + c + d == a + (b + (c + d)) == a + (b + c + d)
    ensures b + c + d == b + (c + d)
  {
  }

  lemma BodyGrows(rows: seq<Row>, i: nat)
    requires i < |rows|
    ensures TableText(Body(rows[..i + 1])) == TableText(Body(rows[..i])) + (RecordText(Cells(rows[i])) + ['\n'])
  {
    assert Body(rows[..i + 1])[..i] == Body(rows[..i]);
    assert Body(rows[..i + 1])[i] == Cells(rows[i]);
  }

  // --- Reading (section 2 of RFC 4180, records ended by LF) ---

  datatype Mode = Start | Plain | Quoted | Closing

  /** Where a reader stands; None once the text cannot be CSV. */
  datatype Reader = Reader(records: seq<seq<string>>, cells: seq<string>, cell: string, mode: Mode)

  function EndCell(p: Reader): Reader {
    p.(cells := p.cells + [p.cell], cell := "", mode := Start)
  }

  function EndRecord(p: Reader): Reader {
    Reader(p.records + [p.cells + [p.cell]], [], "", Start)
  }

  function Push(p: Reader, c: char, mode: Mode): Reader {
    p.(cell := p.cell + [c], mode := mode)
  }

  function Read(p: Reader, c: char): Option<Reader> {
    if p.mode.Quoted? then
      if c == '"' then Some(p.(mode := Closing)) else Some(Push(p, c, Quoted))
    else if c == ',' then Some(EndCell(p))
    else if c == '\n' then Some(EndRecord(p))
    else if c == '"' then
      (match p.mode
       case Start => Some(p.(mode := Quoted))
       case Closing => Some(Push(p, c, Quoted))
       case _ => None)
    else if p.mode.Closing? || c == '\r' then None
    else Some(Push(p, c, Plain))
  }

  function Feed(p: Reader, s: string): Option<Reader> {
    if s == "" then Some(p)
    else
      var before := Feed(p, s[..|s| - 1]);
      if before.None? then None else Read(before.value, s[|s| - 1])
  }

  /** The records of a text that ends with a record, None for any other text. */
  function Parse(s: string): Option<seq<seq<string>>> {
    var p := Feed(Reader([], [], "", Start), s);
    if p.Some? && p.value.cells == [] && p.value.mode.Start? then Some(p.value.records) else None
  }

  lemma {:induction false} FeedMore(p: Reader, a: string, b: string)
    requires Feed(p, a).Some?
    ensures Feed(p, a + b) == Feed(Feed(p, a).value, b)
    decreases |b|
  {
    if b == "" {
      assert a + b == a;
    } else {
      assert (a + b)[..|a + b| - 1] == a + b[..|b| - 1];
      FeedMore(p, a, b[..|b| - 1]);
    }
  }

  /** A reader at the end of a cell that holds `s`. */
  predicate Holds(q: Option<Reader>, p: Reader, s: string) {
    q.Some? && !q.value.mode.Quoted? && q.value.(mode := Start) == p.(cell := s)
  }

  predicate Fresh(p: Reader) {
    p.cell == "" && p.mode.Start?
  }

  lemma PlainParts(s: string)
    requires s != "" && !NeedsQuotes(s)
    ensures !NeedsQuotes(s[..|s| - 1]) && !Special(s[|s| - 1])
  {
    assert forall i | 0 <= i < |s| - 1 :: s[..|s| - 1][i] == s[i];
  }

  lemma {:induction false} ReadPlain(p: Reader, s: string)
    requires Fresh(p) && !NeedsQuotes(s)
    ensures Holds(Feed(p, s), p, s)
    ensures Feed(p, s).value.mode == if s == "" then Start else Plain
    decreases |s|
  {
    if s != "" {
      var n := |s| - 1;
      PlainParts(s);
      ReadPlain(p, s[..n]);
      assert s == s[..n] + [s[n]];
    }
  }

  lemma {:induction false} ReadDoubled(p: Reader, s: string)
    requires p.cell == "" && p.mode.Quoted?
    ensures Feed(p, Doubled(s)) == Some(p.(cell := s))
    decreases |s|
  {
    if s != "" {
      var n := |s| - 1;
      var rest, c := Doubled(s[..n]), s[n];
      ReadDoubled(p, s[..n]);
      var q := p.(cell := s[..n]);
      assert s == s[..n] + [c];
      FeedMore(p, rest, if c == '"' then ['"', '"'] else [c]);
      ReadInner(q, c);
    }
  }

  /** One character of quoted content: a quote arrives doubled. */
  lemma ReadInner(q: Reader, c: char)
    requires q.mode.Quoted?
    ensures Feed(q, if c == '"' then ['"', '"'] else [c]) == Some(Push(q, c, Quoted))
  {
    FeedOne(q, c);
    if c == '"' {
      assert ['"', '"'] == [c] + [c];
      FeedMore(q, [c], [c]);
      FeedOne(q.(mode := Closing), c);
    }
  }

  lemma FeedOne(p: Reader, c: char)
    ensures Feed(p, [c]) == Read(p, c)
  {
    assert [c][..0] == "";
  }

  lemma ReadField(p: Reader, s: string)
    requires Fresh(p)
    ensures Holds(Feed(p, FieldText(s)), p, s)
  {
    if NeedsQuotes(s) {
      var q := p.(mode := Quoted);
      FeedOne(p, '"');
      FeedMore(p, ['"'], Doubled(s));
      ReadDoubled(q, s);
      FeedMore(p, ['"'] + Doubled(s), ['"']);
      FeedOne(q.(cell := s), '"');
    } else {
      ReadPlain(p, s);
    }
  }

  /** After a record's cells only the last one is still open. */
  lemma {:induction false} ReadRecord(p: Reader, cells: seq<string>)
    requires Fresh(p) && p.cells == [] && cells != []
    ensures Holds(Feed(p, RecordText(cells)), p.(cells := cells[..|cells| - 1]), cells[|cells| - 1])
    decreases |cells|
  {
    var n := |cells| - 1;
    if n == 0 {
      assert cells[..0] == [];
      ReadField(p, cells[0]);
    } else {
      var before := RecordText(cells[..n]);
      ReadRecord(p, cells[..n]);
      var q := Feed(p, before).value;
      FeedMore(p, before, [',']);
      FeedOne(q, ',');
      assert cells[..n] == cells[..n][..n - 1] + [cells[n - 1]];
      assert EndCell(q) == p.(cells := cells[..n]);
      FeedMore(p, before + [','], FieldText(cells[n]));
      ReadField(EndCell(q), cells[n]);
    }
  }

  predicate NoEmptyRecord(records: seq<seq<string>>) {
    forall i | 0 <= i < |records| :: records[i] != []
  }

  lemma ReadLine(p: Reader, cells: seq<string>)
    requires Fresh(p) && p.cells == [] && cells != []
    ensures Feed(p, RecordText(cells) + ['\n']) == Some(p.(records := p.records + [cells]))
  {
    ReadRecord(p, cells);
    var q := Feed(p, RecordText(cells)).value;
    FeedMore(p, RecordText(cells), ['\n']);
    FeedOne(q, '\n');
    WholeRecord(cells);
    assert Read(q, '\n') == Some(EndRecord(q));
  }

  lemma WholeRecord(cells: seq<string>)
    requires cells != []
    ensures cells[..|cells| - 1] + [cells[|cells| - 1]] == cells
  {
  }

  lemma {:induction false} ReadTable(p: Reader, records: seq<seq<string>>)
    requires Fresh(p) && p.cells == [] && NoEmptyRecord(records)
    ensures Feed(p, TableText(records)) == Some(p.(records := p.records + records))
    decreases |records|
  {
    if records == [] {
      assert p.records + records == p.records;
    } else {
      var front, last := records[..|records| - 1], records[|records| - 1];
      ReadTable(p, front);
      Regroup("", TableText(front), RecordText(last), ['\n']);
      FeedMore(p, TableText(front), RecordText(last) + ['\n']);
      ReadLine(p.(records := p.records + front), last);
      AppendLast(p.records, records);
    }
  }

  lemma AppendLast(a: seq<seq<string>>, b: seq<seq<string>>)
    requires b != []
    ensures a + b[..|b| - 1] + [b[|b| - 1]] == a + b
  {
  }

  /** Reading any rendered table of non-empty records returns its cells. */
  lemma TableRoundTrip(records: seq<seq<string>>)
    requires NoEmptyRecord(records)
    ensures Parse(TableText(records)) == Some(records)
  {
    ReadTable(Reader([], [], "", Start), records);
    assert [] + records == records;
  }

  /** The header line is the record of its names: none needs quoting. */
  lemma {:induction false} PlainRecord(names: seq<string>)
    requires forall i | 0 <= i < |names| :: !NeedsQuotes(names[i])
    ensures RecordText(names) == CommaJoined(names)
    decreases |names|
  {
    if |names| > 1 {
      PlainRecord(names[..|names| - 1]);
    }
  }

  predicate NameChar(c: char) {
    'a' <= c <= 'z' || c == '_'
  }

  predicate IsName(s: string) {
    forall i | 0 <= i < |s| :: NameChar(s[i])
  }

  predicate AllNames(names: seq<string>) {
    forall i | 0 <= i < |names| :: IsName(names[i])
  }

  lemma NamesArePlain(s: string)
    requires IsName(s)
    ensures !NeedsQuotes(s)
  {
    assert forall i | 0 <= i < |s| :: NameChar(s[i]) && !Special(s[i]);
  }

  lemma NamedRoundTrip(names: seq<string>, records: seq<seq<string>>)
    requires names != [] && AllNames(names) && NoEmptyRecord(records)
    ensures Parse(CommaJoined(names) + ['\n'] + TableText(records)) == Some([names] + records)
  {
    forall i | 0 <= i < |names| ensures !NeedsQuotes(names[i]) {
      NamesArePlain(names[i]);
    }
    PlainRecord(names);
    TableFront(names, records);
    TableRoundTrip([names] + records);
  }

  lemma HeaderNames()
    ensures AllNames(HEADER)
  {
    assert IsName("seq") && IsName("ts") && IsName("subject") && IsName("decision");
    assert IsName("reason") && IsName("action") && IsName("cluster") && IsName("method") && IsName("path");
    assert IsName("status") && IsName("latency_ms") && IsName("required_action");
    assert IsName("required_target") && IsName("granted_roles");
  }

  /** Reading an exported page returns the header and the 14 cells of every row,
      for cells with any mix of commas, quotes, CR and LF. */
  lemma ExportRoundTrip(rows: seq<Row>)
    ensures Parse(HeaderLine() + TableText(Body(rows))) == Some([HEADER] + Body(rows))
  {
    HeaderNames();
    NamedRoundTrip(HEADER, Body(rows));
  }

  lemma {:induction false} TableFront(first: seq<string>, records: seq<seq<string>>)
    ensures TableText([first] + records) == (RecordText(first) + ['\n']) + TableText(records)
    decreases |records|
  {
    if records == [] {
      assert [first] + records == [first];
      assert [first][..0] == [];
      assert TableText([first]) == TableText([]) + RecordText(first) + ['\n'];
    } else {
      var n := |records| - 1;
      TableFront(first, records[..n]);
      assert ([first] + records)[..n + 1] == [first] + records[..n];
      Regroup(RecordText(first) + ['\n'], TableText(records[..n]), RecordText(records[n]), ['\n']);
    }
  }
}
