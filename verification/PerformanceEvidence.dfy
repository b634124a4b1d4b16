// validate_performance: when measured request evidence is accepted.
module PerformanceEvidence {
  import opened Options
  import opened JsonValues

  const ROUTES := {"/health/live", "/health/ready", "/api/v1/auth/me", "/api/v1/client/loans",
                   "/api/v1/collector/cash-accountability", "/api/v1/employee-operations/workspace",
                   "/api/v1/management/dashboard-overview"}
  const DENIED := "/api/v1/management/dashboard-overview"
  const WORKLOAD := {"clients", "active_loans", "route_entries", "collectors", "employees"}

  // An int or a float proper: a bool is no measurement.
  predicate Measured(j: Json) {
    j.JInt? || j.JFloat?
  }

  predicate Positive(j: Json) {
    Measured(j) && NumericValue(j) > 0.0
  }

  predicate Latency(j: Json) {
    Measured(j) && NumericValue(j) >= 0.0
  }

  function Amount(j: Json): real {
    if Numeric(j) then NumericValue(j) else 0.0
  }

  predicate ScopeOk(report: Json, dated: Json -> bool) {
    && report.JObj?
    && Same(Field(report, "schema_version"), JInt(1))
    && Field(report, "measurement_only") == JBool(true) && Field(report, "production_acceptance") == JBool(false)
    && Field(report, "outcome") == JStr("measured") && dated(Field(report, "measured_at"))
    && Field(Field(report, "synthetic_workload"), "synthetic") == JBool(true)
    && (forall k | k in WORKLOAD :: Positive(Field(Field(report, "synthetic_workload"), k)))
  }

  predicate Hashable(j: Json) {
    !j.JList? && !j.JObj?
  }

  // Every request of the row was answered with the expected status and none failed.
  predicate AllAsExpected(row: Json) {
    && row.JObj? && "expected_status" in row.fields && "requests" in row.fields
    && var status := Str(row.fields["expected_status"]);
    && status.Plain?
    && Same(Field(row, "status_counts"), JObj(map[status.text := row.fields["requests"]]))
    && Same(Field(row, "error_counts"), JObj(map[]))
    && Same(Field(row, "error_rate"), JInt(0))
  }

  predicate LatenciesOrdered(row: Json) {
    && Latency(Field(row, "p50_ms")) && Latency(Field(row, "p95_ms")) && Latency(Field(row, "max_ms"))
    && Amount(Field(row, "p50_ms")) <= Amount(Field(row, "p95_ms")) <= Amount(Field(row, "max_ms"))
  }

  predicate RowOk(row: Json) {
    && row.JObj? && Field(row, "method") == JStr("GET") && Positive(Field(row, "requests"))
    && Hashable(Field(row, "path")) && Hashable(Field(row, "expected_status"))
    && AllAsExpected(row) && LatenciesOrdered(row)
  }

  predicate Observes(row: Json, path: string, status: int) {
    Field(row, "path") == JStr(path) && Same(Field(row, "expected_status"), JInt(status))
  }

  predicate Observed(rows: seq<Json>, path: string, status: int) {
    exists row | row in rows :: Observes(row, path, status)
  }

  predicate Covered(rows: seq<Json>) {
    (forall path | path in ROUTES :: Observed(rows, path, 200)) && Observed(rows, DENIED, 403)
  }

  function Requests(rows: seq<Json>): real {
    if rows == [] then 0.0 else Requests(rows[..|rows| - 1]) + Amount(Field(rows[|rows| - 1], "requests"))
  }

  function Budget(report: Json): Json {
    Field(Field(report, "thresholds"), "max_p95_ms")
  }

  predicate BudgetStated(report: Json) {
    && Field(report, "threshold_assessment") == JStr("met") && Positive(Budget(report))
    && Same(Field(Field(report, "thresholds"), "max_error_rate"), JInt(0))
  }

  // The measured rows are clean and ordered, cover every route and the denial, add up to the
  // completed total, and keep the stated latency budget.
  predicate Accepted(report: Json, dated: Json -> bool) {
    && ScopeOk(report, dated)
    && Field(report, "scenarios").JList?
    && var rows := Field(report, "scenarios").items;
    && rows != [] && (forall row | row in rows :: RowOk(row))
    && Covered(rows) && Numeric(Field(report, "completed_requests"))
    && Amount(Field(report, "completed_requests")) == Requests(rows)
    && BudgetStated(report)
    && (forall row | row in rows :: Amount(Field(row, "p95_ms")) <= Amount(Budget(report)))
  }

  method ValidatePerformance(report: Json, dated: Json -> bool) returns (ok: bool)
    ensures ok <==> Accepted(report, dated)
  {
    hide ScopeOk, RowOk, Covered, BudgetStated, Budget;
    if !ScopeOk(report, dated) || !Field(report, "scenarios").JList? { return false; }
    var rows := Field(report, "scenarios").items;
    if rows == [] { return false; }
    var total := 0.0;
    for i := 0 to |rows|
      invariant forall k | 0 <= k < i :: RowOk(rows[k])
      invariant total == Requests(rows[..i])
    {
      if !RowOk(rows[i]) { return false; }
      assert rows[..i + 1][..i] == rows[..i];
      total := total + Amount(Field(rows[i], "requests"));
    }
    assert rows[..|rows|] == rows;
    if !Covered(rows) || !Numeric(Field(report, "completed_requests")) || Amount(Field(report, "completed_requests")) != total {
      return false;
    }
    if !BudgetStated(report) { return false; }
    return forall row | row in rows :: Amount(Field(row, "p95_ms")) <= Amount(Budget(report));
  }

  // ----- What an accepted report guarantees -----

  // The requests a row counts under its expected status.
  function Answered(row: Json): real {
    if row.JObj? && "expected_status" in row.fields && Str(row.fields["expected_status"]).Plain?
    then Amount(Field(Field(row, "status_counts"), Str(row.fields["expected_status"]).text))
    else 0.0
  }

  function AnsweredAll(rows: seq<Json>): real {
    if rows == [] then 0.0 else AnsweredAll(rows[..|rows| - 1]) + Answered(rows[|rows| - 1])
  }

  lemma RowIsAnswered(row: Json)
    requires RowOk(row)
    ensures Answered(row) == Amount(Field(row, "requests")) > 0.0
  {
    hide LatenciesOrdered;
    var status := Str(row.fields["expected_status"]).text;
    var counts, expected := Field(row, "status_counts"), JObj(map[status := row.fields["requests"]]);
    assert Same(counts, expected);
    assert status in counts.fields && Same(counts.fields[status], expected.fields[status]);
  }

  lemma {:induction false} RequestsAreAnswered(rows: seq<Json>)
    requires forall row | row in rows :: RowOk(row)
    ensures AnsweredAll(rows) == Requests(rows)
  {
    hide RowOk, Answered;
    if rows != [] {
      RequestsAreAnswered(rows[..|rows| - 1]);
      RowIsAnswered(rows[|rows| - 1]);
    }
  }

  // In an accepted report the completed total is the number of requests answered as expected,
  // every route and the denial have some of them, and no row's 95th percentile is over budget.
  lemma AcceptedMeansAnswered(report: Json, dated: Json -> bool)
    requires Accepted(report, dated)
    ensures var rows := Field(report, "scenarios").items;
            && Amount(Field(report, "completed_requests")) == AnsweredAll(rows)
            && (forall path | path in ROUTES :: exists row | row in rows :: Observes(row, path, 200) && Answered(row) > 0.0)
            && (exists row | row in rows :: Observes(row, DENIED, 403) && Answered(row) > 0.0)
            && (forall row | row in rows ::
                  Amount(Field(row, "p50_ms")) <= Amount(Field(row, "p95_ms")) <= Amount(Budget(report)))
  {
    hide Observes, Answered, BudgetStated, ScopeOk;
    var rows := Field(report, "scenarios").items;
    RequestsAreAnswered(rows);
    forall row | row in rows ensures Answered(row) > 0.0 { RowIsAnswered(row); }
    forall path | path in ROUTES ensures exists row | row in rows :: Observes(row, path, 200) && Answered(row) > 0.0 {
      assert Observed(rows, path, 200);
    }
    assert Observed(rows, DENIED, 403);
  }
}
