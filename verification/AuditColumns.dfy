/** What the cells of an audit export say: which column holds which field of a row,
    and when a cell is quoted. */
module AuditColumns {
  import opened Types
  import opened Keys
  import opened Audit
  import opened AuditCsv

  /** A cell is written as it is exactly when it has no comma, quote, CR or LF. */
  lemma PlainIff(s: string)
    ensures FieldText(s) == s <==> ',' !in s && '"' !in s && '\n' !in s && '\r' !in s
  {
    if NeedsQuotes(s) {
      DoubledLength(s);
      assert |FieldText(s)| > |s|;
    }
    assert !NeedsQuotes(s) <==> ',' !in s && '"' !in s && '\n' !in s && '\r' !in s;
  }

  lemma {:induction false} DoubledLength(s: string)
    ensures |Doubled(s)| >= |s|
  {
    if s != "" {
      DoubledLength(s[..|s| - 1]);
    }
  }

  /** The names of the columns and the row's own fields under them, absent ones empty. */
  predicate NamesColumns(header: seq<string>) {
    && |header| == 14
    && header[0] == "seq" && header[1] == "ts" && header[2] == "subject" && header[3] == "decision"
    && header[4] == "reason" && header[5] == "action" && header[6] == "cluster" && header[7] == "method"
    && header[8] == "path" && header[9] == "status" && header[10] == "latency_ms"
    && header[11] == "required_action" && header[12] == "required_target" && header[13] == "granted_roles"
  }

  predicate Shows(cell: string, field: Option<string>) {
    if field.None? then cell == "" else cell == field.value
  }

  predicate ShowsNumber(cell: string, field: Option<nat>) {
    if field.None? then cell == "" else cell != "" && AllDigits(cell) && ParseDecimal(cell) == field.value
  }

  /** The parts between semicolons. */
  function Split(s: string): (parts: seq<string>)
    ensures |parts| > 0
  {
    if s == "" then [""]
    else
      var before, c := Split(s[..|s| - 1]), s[|s| - 1];
      if c == ';' then before + [""]
      else before[..|before| - 1] + [before[|before| - 1] + [c]]
  }

  /** Roles without semicolons can be told apart again. */
  predicate ShowsRoles(cell: string, roles: seq<string>) {
    if roles == [] then cell == ""
    else (forall i | 0 <= i < |roles| :: ';' !in roles[i]) ==> Split(cell) == roles
  }

  /** Cells 0 to 6: which row, when, who, what was decided and about what. */
  predicate TellsDecision(cells: seq<string>, r: Row)
    requires |cells| == 14
  {
    var e := r.event;
    && ShowsNumber(cells[0], Some(r.seqNo)) && ShowsNumber(cells[1], Some(e.ts)) && Shows(cells[2], e.subject)
    && cells[3] == (match e.decision case Allow => "allow" case Deny => "deny")
    && Shows(cells[4], e.reason) && Shows(cells[5], e.action) && Shows(cells[6], e.cluster)
  }

  /** Cells 7 to 13: the request, its outcome, what it required and what was granted. */
  predicate TellsRequest(cells: seq<string>, e: AuditEvent)
    requires |cells| == 14
  {
    && Shows(cells[7], e.verb) && Shows(cells[8], e.path)
    && ShowsNumber(cells[9], e.status) && ShowsNumber(cells[10], e.latencyMs)
    && Shows(cells[11], if e.required.Some? then Some(e.required.value.action) else None)
    && Shows(cells[12], if e.required.Some? then Some(e.required.value.target) else None)
    && ShowsRoles(cells[13], e.grantedRoles)
  }

  predicate TellsRow(cells: seq<string>, r: Row) {
    |cells| == 14 && TellsDecision(cells, r) && TellsRequest(cells, r.event)
  }

  /** The text goes to the last part. */
  function Glued(parts: seq<string>, t: string): seq<string>
    requires |parts| > 0
  {
    parts[..|parts| - 1] + [parts[|parts| - 1] + t]
  }

  lemma GluedTwice(parts: seq<string>, t: string, c: char)
    requires |parts| > 0
    ensures Glued(Glued(parts, t), [c]) == Glued(parts, t + [c])
  {
    assert parts[|parts| - 1] + t + [c] == parts[|parts| - 1] + (t + [c]);
    assert Glued(parts, t)[..|parts| - 1] == parts[..|parts| - 1];
  }

  lemma SplitNext(s: string, c: char, all: string)
    requires all == s + [c]
    ensures Split(all) == if c == ';' then Split(s) + [""] else Glued(Split(s), [c])
  {
    assert all[..|all| - 1] == s;
  }

  lemma GluedNone(parts: seq<string>)
    requires |parts| > 0
    ensures Glued(parts, "") == parts
  {
    assert parts[|parts| - 1] + "" == parts[|parts| - 1];
  }

  lemma LastChar(s: string, t: string)
    requires t != ""
    ensures t == t[..|t| - 1] + [t[|t| - 1]] && s + t == s + t[..|t| - 1] + [t[|t| - 1]]
  {}

  lemma {:induction false} SplitGrows(s: string, t: string)
    requires ';' !in t
    ensures Split(s + t) == Glued(Split(s), t)
    decreases |t|
  {
    if t == "" {
      assert s + t == s;
      GluedNone(Split(s));
    } else {
      var front, c := t[..|t| - 1], t[|t| - 1];
      LastChar(s, t);
      SplitGrows(s, front);
      SplitNext(s + front, c, s + t);
      GluedTwice(Split(s), front, c);
    }
  }

  lemma SplitLast(s: string, t: string)
    requires ';' !in t
    ensures Split(s + ";" + t) == Split(s) + [t]
  {
    SplitNext(s, ';', s + ";");
    SplitGrows(s + ";", t);
    assert "" + t == t;
    assert (Split(s) + [""])[..|Split(s)|] == Split(s);
  }

  lemma {:induction false} JoinedSplits(roles: seq<string>)
    requires roles != [] && forall i | 0 <= i < |roles| :: ';' !in roles[i]
    ensures Split(Joined(roles)) == roles
    decreases |roles|
  {
    var n := |roles| - 1;
    var front := roles[..n];
    assert roles == front + [roles[n]];
    if n == 0 {
      SplitGrows("", roles[0]);
      assert "" + roles[0] == roles[0];
    } else {
      JoinedSplits(front);
      SplitLast(Joined(front), roles[n]);
    }
  }

  lemma TextShows(field: Option<string>)
    ensures Shows(OrEmpty(field), field)
  {}

  lemma NumberShows(field: Option<nat>)
    ensures ShowsNumber(Number(field), field)
  {
    if field.Some? {
      DecimalRoundTrip(field.value);
    }
  }

  lemma RolesShow(roles: seq<string>)
    ensures ShowsRoles(Joined(roles), roles)
  {
    if roles != [] && forall i | 0 <= i < |roles| :: ';' !in roles[i] {
      JoinedSplits(roles);
    }
  }

  lemma CellsTellDecision(r: Row)
    ensures TellsDecision(Cells(r), r)
  {
    NumberShows(Some(r.seqNo));
    NumberShows(Some(r.event.ts));
    TextShows(r.event.subject);
    TextShows(r.event.reason);
    TextShows(r.event.action);
    TextShows(r.event.cluster);
  }

  lemma CellsTellRequest(r: Row)
    ensures TellsRequest(Cells(r), r.event)
  {
    NumberShows(r.event.status);
    NumberShows(r.event.latencyMs);
    TextShows(r.event.verb);
    TextShows(r.event.path);
    RolesShow(r.event.grantedRoles);
  }

  /** Whoever reads an export back finds under each column name the row's own field. */
  lemma ExportTellsRows(rows: seq<Row>)
    ensures
      var table := Parse(HeaderLine() + TableText(Body(rows)));
      && table.Some? && |table.value| == |rows| + 1 && NamesColumns(table.value[0])
      && forall i | 0 <= i < |rows| :: TellsRow(table.value[i + 1], rows[i])
  {
    ExportRoundTrip(rows);
    forall i | 0 <= i < |rows| ensures TellsRow(Body(rows)[i], rows[i]) {
      CellsTellDecision(rows[i]);
      CellsTellRequest(rows[i]);
    }
  }
}
