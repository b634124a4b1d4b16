// Which performance report is accepted, member by member.
module PerformanceFields {
  import opened Options
  import opened Text
  import opened JsonValues
  import opened JsonMembers
  import opened PerformanceEvidence

  ghost predicate AboveZero(fields: map<string, Json>, key: string) {
    exists x :: x > 0.0 && Is(fields, key, x)
  }

  // ----- Scope -----

  ghost predicate MeasuredScope(report: Json, dated: Json -> bool) {
    && report.JObj?
    && Equals(report.fields, "schema_version", 1.0)
    && Has(report.fields, "measurement_only", JBool(true)) && Has(report.fields, "production_acceptance", JBool(false))
    && Has(report.fields, "outcome", JStr("measured"))
    && dated(Member(report.fields, "measured_at"))
    && HasObject(report.fields, "synthetic_workload")
    && var load := report.fields["synthetic_workload"].fields;
    && Has(load, "synthetic", JBool(true))
    && AboveZero(load, "clients") && AboveZero(load, "active_loans") && AboveZero(load, "route_entries")
    && AboveZero(load, "collectors") && AboveZero(load, "employees")
  }

  lemma PositiveIff(j: Json, key: string)
    requires j.JObj?
    ensures Positive(Field(j, key)) <==> AboveZero(j.fields, key)
  {
    if key in j.fields && Measured(j.fields[key]) {
      var x := NumericValue(j.fields[key]);
      assert Is(j.fields, key, x);
    }
  }

  lemma ScopeIff(report: Json, dated: Json -> bool)
    ensures ScopeOk(report, dated) <==> MeasuredScope(report, dated)
  {
    hide Same, Positive, Is, Equals, AboveZero;
    if report.JObj? {
      SameNumberIff(report, "schema_version", 1);
      if HasObject(report.fields, "synthetic_workload") {
        var load := report.fields["synthetic_workload"];
        assert load == Field(report, "synthetic_workload");
        PositiveIff(load, "clients");
        PositiveIff(load, "active_loans");
        PositiveIff(load, "route_entries");
        PositiveIff(load, "collectors");
        PositiveIff(load, "employees");
      }
    }
  }

  // ----- Rows -----

  // The only count is that of the expected status, it is the number of requests, and no request
  // failed.
  ghost predicate AllAnswered(row: map<string, Json>) {
    && HasObject(row, "status_counts") && "expected_status" in row && "requests" in row
    && (exists status :: Prints(row["expected_status"], status) && row["status_counts"].fields.Keys == {status}
                         && Same(row["status_counts"].fields[status], row["requests"]))
    && Has(row, "error_counts", JObj(map[])) && Equals(row, "error_rate", 0.0)
  }

  lemma SameEmptyIff(j: Json)
    ensures Same(j, JObj(map[])) <==> j == JObj(map[])
  {
  }

  lemma SingleIff(j: Json, key: string, v: Json)
    ensures Same(j, JObj(map[key := v])) <==> j.JObj? && j.fields.Keys == {key} && Same(j.fields[key], v)
  {
    var expected := JObj(map[key := v]);
    assert expected.fields.Keys == {key};
    if j.JObj? && j.fields.Keys == {key} {
      assert forall k | k in j.fields :: k == key && Same(j.fields[k], expected.fields[k]) <==> Same(j.fields[key], v);
    }
  }

  lemma AnsweredIff(row: Json)
    requires row.JObj?
    ensures AllAsExpected(row) <==> AllAnswered(row.fields)
  {
    hide Same, Decimal;
    SameEmptyIff(Field(row, "error_counts"));
    SameNumberIff(row, "error_rate", 0);
    if "expected_status" in row.fields && "requests" in row.fields {
      var shown := Str(row.fields["expected_status"]);
      forall t ensures shown == Plain(t) <==> Prints(row.fields["expected_status"], t) { PrintsIff(row.fields["expected_status"], t); }
      if shown.Plain? { SingleIff(Field(row, "status_counts"), shown.text, row.fields["requests"]); }
    }
  }

  ghost predicate OrderedLatencies(row: map<string, Json>) {
    exists a, b, c :: 0.0 <= a <= b <= c && Is(row, "p50_ms", a) && Is(row, "p95_ms", b) && Is(row, "max_ms", c)
  }

  lemma LatencyIff(j: Json, key: string)
    requires j.JObj?
    ensures Latency(Field(j, key)) <==> exists x :: 0.0 <= x && Is(j.fields, key, x)
    ensures forall x | Is(j.fields, key, x) :: Amount(Field(j, key)) == x
    ensures Latency(Field(j, key)) ==> Is(j.fields, key, Amount(Field(j, key)))
  {
    if key in j.fields && Measured(j.fields[key]) { assert Is(j.fields, key, NumericValue(j.fields[key])); }
  }

  lemma OrderedIff(row: Json)
    requires row.JObj?
    ensures LatenciesOrdered(row) <==> OrderedLatencies(row.fields)
  {
    hide Latency, Is, Amount;
    LatencyIff(row, "p50_ms");
    LatencyIff(row, "p95_ms");
    LatencyIff(row, "max_ms");
    if LatenciesOrdered(row) {
      LatencyNotNegative(Field(row, "p50_ms"));
    }
    if OrderedLatencies(row.fields) {
      var a, b, c :| 0.0 <= a <= b <= c && Is(row.fields, "p50_ms", a) && Is(row.fields, "p95_ms", b) && Is(row.fields, "max_ms", c);
      assert Amount(Field(row, "p50_ms")) == a && Amount(Field(row, "p95_ms")) == b && Amount(Field(row, "max_ms")) == c;
    }
  }

  lemma LatencyNotNegative(j: Json)
    requires Latency(j)
    ensures Amount(j) >= 0.0
  {
  }

  ghost predicate Simple(fields: map<string, Json>, key: string) {
    key in fields ==> !fields[key].JList? && !fields[key].JObj?
  }

  ghost predicate CleanRow(row: Json) {
    && row.JObj? && Has(row.fields, "method", JStr("GET")) && AboveZero(row.fields, "requests")
    && Simple(row.fields, "path") && Simple(row.fields, "expected_status")
    && AllAnswered(row.fields) && OrderedLatencies(row.fields)
  }

  lemma RowIff(row: Json)
    ensures RowOk(row) <==> CleanRow(row)
  {
    hide AllAsExpected, AllAnswered, LatenciesOrdered, OrderedLatencies, Positive, AboveZero;
    if row.JObj? {
      PositiveIff(row, "requests");
      AnsweredIff(row);
      OrderedIff(row);
    }
  }

  // ----- Coverage, total and budget -----

  ghost predicate Visits(rows: seq<Json>, path: string, status: real) {
    exists i :: 0 <= i < |rows| && rows[i].JObj? && Has(rows[i].fields, "path", JStr(path))
                && Equals(rows[i].fields, "expected_status", status)
  }

  ghost predicate VisitsAll(rows: seq<Json>) {
    && Visits(rows, "/health/live", 200.0) && Visits(rows, "/health/ready", 200.0) && Visits(rows, "/api/v1/auth/me", 200.0)
    && Visits(rows, "/api/v1/client/loans", 200.0) && Visits(rows, "/api/v1/collector/cash-accountability", 200.0)
    && Visits(rows, "/api/v1/employee-operations/workspace", 200.0)
    && Visits(rows, "/api/v1/management/dashboard-overview", 200.0)
    && Visits(rows, "/api/v1/management/dashboard-overview", 403.0)
  }

  lemma VisitsIff(rows: seq<Json>, path: string, status: int)
    ensures Observed(rows, path, status) <==> Visits(rows, path, status as real)
  {
    hide Same, Equals;
    forall row ensures Observes(row, path, status) <==> row.JObj? && Has(row.fields, "path", JStr(path))
                                                        && Equals(row.fields, "expected_status", status as real)
    {
      if row.JObj? { SameNumberIff(row, "expected_status", status); }
    }
    if Observed(rows, path, status) {
      var row :| row in rows && Observes(row, path, status);
      var i :| 0 <= i < |rows| && rows[i] == row;
    }
    if i :| 0 <= i < |rows| && rows[i].JObj? && Has(rows[i].fields, "path", JStr(path))
            && Equals(rows[i].fields, "expected_status", status as real) {
      assert rows[i] in rows && Observes(rows[i], path, status);
    }
  }

  lemma CoveredIff(rows: seq<Json>)
    ensures Covered(rows) <==> VisitsAll(rows)
  {
    hide Observed, Visits;
    forall path { VisitsIff(rows, path, 200); }
    VisitsIff(rows, DENIED, 403);
  }

  // The requests of the rows add up to total.
  ghost predicate AddUp(rows: seq<Json>, total: real) {
    if rows == [] then total == 0.0
    else exists x :: rows[0].JObj? && Is(rows[0].fields, "requests", x) && AddUp(rows[1..], total - x)
  }

  lemma {:induction false} AddUpIff(rows: seq<Json>, total: real)
    requires forall i | 0 <= i < |rows| :: rows[i].JObj? && AboveZero(rows[i].fields, "requests")
    ensures AddUp(rows, total) <==> total == Requests(rows)
    decreases rows
  {
    if rows != [] {
      hide Requests;
      var rest := rows[1..];
      assert forall i | 0 <= i < |rest| :: rest[i] == rows[i + 1];
      var x := Amount(Field(rows[0], "requests"));
      assert forall y | Is(rows[0].fields, "requests", y) :: y == x;
      var y :| y > 0.0 && Is(rows[0].fields, "requests", y);
      AddUpIff(rest, total - x);
      RequestsFromFront(rows);
    }
  }

  lemma {:induction false} RequestsFromFront(rows: seq<Json>)
    requires rows != []
    ensures Requests(rows) == Amount(Field(rows[0], "requests")) + Requests(rows[1..])
  {
    hide Amount, Field;
    var n := |rows| - 1;
    if n > 0 {
      RequestsFromFront(rows[..n]);
      assert rows[..n][1..] == rows[1..][..n - 1];
    } else {
      assert rows[..0] == [] && rows[1..] == [];
    }
  }

  // A stated budget of b milliseconds, met, with no errors allowed.
  ghost predicate StatesBudget(report: map<string, Json>, b: real) {
    && Has(report, "threshold_assessment", JStr("met")) && HasObject(report, "thresholds") && b > 0.0
    && Is(report["thresholds"].fields, "max_p95_ms", b) && Equals(report["thresholds"].fields, "max_error_rate", 0.0)
  }

  lemma BudgetIff(report: Json)
    requires report.JObj?
    ensures BudgetStated(report) <==> exists b :: StatesBudget(report.fields, b)
    ensures forall b | StatesBudget(report.fields, b) :: Amount(Budget(report)) == b
  {
    hide Same;
    if HasObject(report.fields, "thresholds") {
      var limits := report.fields["thresholds"];
      SameNumberIff(limits, "max_error_rate", 0);
      if BudgetStated(report) {
        var b := Amount(Budget(report));
        assert Is(limits.fields, "max_p95_ms", b) && StatesBudget(report.fields, b);
      }
    }
  }

  ghost predicate KeepsBudget(row: Json, b: real) {
    row.JObj? && exists x :: x <= b && Is(row.fields, "p95_ms", x)
  }

  ghost predicate WithinBudget(rows: seq<Json>, b: real) {
    forall i | 0 <= i < |rows| :: KeepsBudget(rows[i], b)
  }

  // The report is accepted exactly when its scope is a measured one, all its rows are clean, they
  // visit every route and the denial, add up to the completed total and keep the stated budget.
  ghost predicate AcceptableReport(report: Json, dated: Json -> bool) {
    && MeasuredScope(report, dated)
    && "scenarios" in report.fields && report.fields["scenarios"].JList?
    && var rows := report.fields["scenarios"].items;
    && rows != [] && (forall i | 0 <= i < |rows| :: CleanRow(rows[i])) && VisitsAll(rows)
    && (exists total :: Equals(report.fields, "completed_requests", total) && AddUp(rows, total))
    && (exists b :: StatesBudget(report.fields, b) && WithinBudget(rows, b))
  }

  lemma RowsIff(rows: seq<Json>)
    ensures (forall row | row in rows :: RowOk(row)) <==> forall i | 0 <= i < |rows| :: CleanRow(rows[i])
  {
    hide RowOk, CleanRow;
    forall row ensures RowOk(row) <==> CleanRow(row) { RowIff(row); }
  }

  lemma WithinIff(rows: seq<Json>, b: real)
    requires forall i | 0 <= i < |rows| :: CleanRow(rows[i])
    ensures (forall row | row in rows :: Amount(Field(row, "p95_ms")) <= b) <==> WithinBudget(rows, b)
  {
    hide CleanRow, KeepsBudget, Amount, Field;
    forall i | 0 <= i < |rows| ensures KeepsBudget(rows[i], b) <==> Amount(Field(rows[i], "p95_ms")) <= b { P95(rows[i], b); }
  }

  lemma P95(row: Json, b: real)
    requires CleanRow(row)
    ensures KeepsBudget(row, b) <==> Amount(Field(row, "p95_ms")) <= b
  {
    hide AllAnswered, Is, Amount;
    LatencyIff(row, "p95_ms");
  }

  lemma AcceptedIff(report: Json, dated: Json -> bool)
    ensures Accepted(report, dated) <==> AcceptableReport(report, dated)
  {
    hide ScopeOk, MeasuredScope, RowOk, CleanRow, Covered, VisitsAll, Requests, AddUp, BudgetStated, Budget, StatesBudget,
         WithinBudget, Equals, Is;
    ScopeIff(report, dated);
    ScopeIsObject(report, dated);
    if report.JObj? && Field(report, "scenarios").JList? {
      var rows := Field(report, "scenarios").items;
      RowsIff(rows);
      CoveredIff(rows);
      BudgetIff(report);
      CompletedIff(report);
      if forall i | 0 <= i < |rows| :: CleanRow(rows[i]) {
        TotalIff(report, rows);
        forall b { WithinIff(rows, b); }
      }
    }
  }

  lemma ScopeIsObject(report: Json, dated: Json -> bool)
    ensures MeasuredScope(report, dated) ==> report.JObj?
  {
  }

  lemma CompletedIff(report: Json)
    requires report.JObj?
    ensures Numeric(Field(report, "completed_requests"))
            <==> Equals(report.fields, "completed_requests", Amount(Field(report, "completed_requests")))
    ensures forall x | Equals(report.fields, "completed_requests", x) :: Amount(Field(report, "completed_requests")) == x
  {
  }

  lemma TotalIff(report: Json, rows: seq<Json>)
    requires report.JObj? && forall i | 0 <= i < |rows| :: CleanRow(rows[i])
    ensures Numeric(Field(report, "completed_requests")) && Amount(Field(report, "completed_requests")) == Requests(rows)
            <==> exists total :: Equals(report.fields, "completed_requests", total) && AddUp(rows, total)
  {
    forall i | 0 <= i < |rows| ensures rows[i].JObj? && AboveZero(rows[i].fields, "requests") { CleanRowCounts(rows[i]); }
    hide CleanRow, Equals, AddUp, Requests, AboveZero;
    CompletedIff(report);
    forall total ensures AddUp(rows, total) <==> total == Requests(rows) { AddUpIff(rows, total); }
  }

  lemma CleanRowCounts(row: Json)
    requires CleanRow(row)
    ensures row.JObj? && AboveZero(row.fields, "requests")
  {
  }
}
