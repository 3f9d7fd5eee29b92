/** The overall status of a resource, derived from the rows its controllers report. */
module Statuses {
  import opened Tenancy

  datatype Indication = Idle | Working | Erroneous | Gone

  datatype Report = Report(controller: string, row: StatusRow)

  // --- The specification ---

  /** The row a lookup by controller name finds: the last one of that name. */
  function RowsByName(reports: seq<Report>): map<string, StatusRow> {
    if reports == [] then map[]
    else RowsByName(reports[..|reports| - 1])[reports[|reports| - 1].controller := reports[|reports| - 1].row]
  }

  ghost predicate SomeRow(rows: map<string, StatusRow>, registered: set<string>) {
    exists c :: c in registered && c in rows
  }

  ghost predicate SomeError(rows: map<string, StatusRow>, registered: set<string>) {
    exists c :: c in registered && c in rows && rows[c].status.Failed?
  }

  ghost predicate AllCompleted(rows: map<string, StatusRow>, registered: set<string>) {
    forall c :: c in registered ==> c in rows && rows[c].status.Completed?
  }

  /** The indication depends on the rows of the registered controllers only, and on the registered
      controllers only as a set. */
  ghost function Indicate(rows: map<string, StatusRow>, deleted: bool, registered: set<string>): Indication {
    if deleted then
      if !SomeRow(rows, registered) then Gone else if SomeError(rows, registered) then Erroneous else Working
    else
      if SomeError(rows, registered) then Erroneous else if AllCompleted(rows, registered) then Idle else Working
  }

  function Filter(cs: seq<string>, keep: string -> bool): seq<string> {
    if cs == [] then [] else Filter(cs[..|cs| - 1], keep) + (if keep(cs[|cs| - 1]) then [cs[|cs| - 1]] else [])
  }

  /** What a filter keeps, and that it keeps it in order. */
  lemma {:induction false} FilterKeeps(cs: seq<string>, keep: string -> bool)
    ensures forall c :: c in Filter(cs, keep) <==> c in cs && keep(c)
    ensures IsSubsequence(Filter(cs, keep), cs)
    decreases |cs|
  {
    if cs != [] {
      var n := |cs| - 1;
      FilterKeeps(cs[..n], keep);
      assert cs == cs[..n] + [cs[n]];
      var xs := Filter(cs, keep);
      if keep(cs[n]) { assert xs[..|xs| - 1] == Filter(cs[..n], keep); } else { assert xs == Filter(cs[..n], keep); }
    }
  }

  /** `xs` can be obtained from `ys` by leaving elements out. */
  predicate IsSubsequence(xs: seq<string>, ys: seq<string>) {
    if xs == [] then true
    else if ys == [] then false
    else if xs[|xs| - 1] == ys[|ys| - 1] && IsSubsequence(xs[..|xs| - 1], ys[..|ys| - 1]) then true
    else IsSubsequence(xs, ys[..|ys| - 1])
  }

  function Join(parts: seq<string>, separator: string): string {
    if parts == [] then "" else if |parts| == 1 then parts[0]
    else parts[0] + separator + Join(parts[1..], separator)
  }

  /** A joined text is its parts in order with the separator between them. */
  lemma {:induction false} JoinConcatenates(a: seq<string>, b: seq<string>, separator: string)
    requires a != [] && b != []
    ensures Join(a + b, separator) == Join(a, separator) + separator + Join(b, separator)
    ensures |b| == 1 ==> Join(b, separator) == b[0]
    decreases |a|
  {
    if |a| == 1 {
      assert (a + b)[1..] == b;
    } else {
      JoinConcatenates(a[1..], b, separator);
      assert (a + b)[1..] == a[1..] + b;
    }
  }

  function Missing(rows: map<string, StatusRow>, registered: seq<string>): seq<string> {
    Filter(registered, c => c !in rows)
  }

  function Running(rows: map<string, StatusRow>, registered: seq<string>): seq<string> {
    Filter(registered, c => c in rows && rows[c].status.InProgress?)
  }

  function Remaining(rows: map<string, StatusRow>, registered: seq<string>): seq<string> {
    Filter(registered, c => c in rows)
  }

  function Note(prefix: string, cs: seq<string>): seq<string> {
    if cs == [] then [] else [prefix + Join(cs, ", ")]
  }

  /** The message of the first registered controller that reports an error. */
  ghost predicate FirstError(rows: map<string, StatusRow>, registered: seq<string>, message: string) {
    exists i :: 0 <= i < |registered| && registered[i] in rows && rows[registered[i]].status.Failed?
      && message == rows[registered[i]].message
      && forall j :: 0 <= j < i ==> !(registered[j] in rows && rows[registered[j]].status.Failed?)
  }

  ghost predicate Explains(message: string, indication: Indication, rows: map<string, StatusRow>, deleted: bool,
        registered: seq<string>)
  {
    match indication
    case Erroneous => FirstError(rows, registered, message)
    case Working =>
      message == if deleted then Join(Note("deleting, waiting for: ", Remaining(rows, registered)), "; ")
                 else Join(Note("waiting for: ", Missing(rows, registered))
                           + Note("in progress: ", Running(rows, registered)), "; ")
    case _ => message == ""
  }

  ghost function SetOf(cs: seq<string>): set<string> { set c | c in cs }

  // --- What the reports say, without the specification ---

  /** Rows have distinct controller names, as the unique index guarantees for one resource. */
  ghost predicate DistinctNames(reports: seq<Report>) {
    forall i, j :: 0 <= i < j < |reports| ==> reports[i].controller != reports[j].controller
  }

  lemma {:induction false} RowsByNameIsLookup(reports: seq<Report>, c: string)
    requires DistinctNames(reports)
    ensures c in RowsByName(reports) <==> exists i :: 0 <= i < |reports| && reports[i].controller == c
    ensures forall i :: 0 <= i < |reports| && reports[i].controller == c ==>
        c in RowsByName(reports) && RowsByName(reports)[c] == reports[i].row
    decreases |reports|
  {
    if reports != [] {
      var n := |reports| - 1;
      RowsByNameIsLookup(reports[..n], c);
      if c in RowsByName(reports[..n]) {
        var i :| 0 <= i < n && reports[..n][i].controller == c;
        assert reports[i].controller == c;
      }
    }
  }

  ghost predicate Reported(reports: seq<Report>, c: string) {
    exists i :: 0 <= i < |reports| && reports[i].controller == c
  }

  ghost predicate ReportedAs(reports: seq<Report>, c: string, status: Status) {
    exists i :: 0 <= i < |reports| && reports[i].controller == c && reports[i].row.status == status
  }

  lemma ReportsAreRows(reports: seq<Report>, c: string)
    requires DistinctNames(reports)
    ensures Reported(reports, c) <==> c in RowsByName(reports)
    ensures forall status :: ReportedAs(reports, c, status) <==>
                c in RowsByName(reports) && RowsByName(reports)[c].status == status
  {
    RowsByNameIsLookup(reports, c);
  }

  /** An active resource is in error exactly if a registered controller reports a failure, idle exactly if
      every registered controller has reported completion, and otherwise in progress. */
  lemma ActiveExactly(reports: seq<Report>, registered: seq<string>)
    requires DistinctNames(reports)
    ensures var indication := Indicate(RowsByName(reports), false, SetOf(registered));
            var failed := exists c :: c in registered && ReportedAs(reports, c, Failed);
            var completed := forall c :: c in registered ==> ReportedAs(reports, c, Completed);
            && (indication.Erroneous? <==> failed) && (indication.Idle? <==> completed)
            && (indication.Working? <==> !failed && !completed)
  {
    forall c { ReportsAreRows(reports, c); }
    assert forall c :: c in SetOf(registered) <==> c in registered;
    var rows := RowsByName(reports);
    if registered != [] && forall c :: c in registered ==> ReportedAs(reports, c, Completed) {
      assert forall c :: c in registered ==> rows[c].status == Completed;
    }
  }

  /** A deleted one is gone exactly if no registered controller has a report, in error exactly if one
      reports a failure, and otherwise in progress. */
  lemma DeletedExactly(reports: seq<Report>, registered: seq<string>)
    requires DistinctNames(reports)
    ensures var indication := Indicate(RowsByName(reports), true, SetOf(registered));
            var failed := exists c :: c in registered && ReportedAs(reports, c, Failed);
            var none := forall c :: c in registered ==> !Reported(reports, c);
            && (indication.Gone? <==> none) && (indication.Erroneous? <==> failed)
            && (indication.Working? <==> !failed && !none)
  {
    forall c { ReportsAreRows(reports, c); }
    assert forall c :: c in SetOf(registered) <==> c in registered;
  }

  // --- The computation ---

  method DeriveStatusFromRows(statuses: seq<Report>, deleted: bool, registered: seq<string>)
    returns (indication: Indication, message: string)
    ensures indication == Indicate(RowsByName(statuses), deleted, SetOf(registered))
    ensures Explains(message, indication, RowsByName(statuses), deleted, registered)
    ensures DistinctNames(statuses) ==>
              var failed := exists c :: c in registered && ReportedAs(statuses, c, Failed);
              var completed := forall c :: c in registered ==> ReportedAs(statuses, c, Completed);
              var none := forall c :: c in registered ==> !Reported(statuses, c);
              if deleted then
                (indication.Gone? <==> none) && (indication.Erroneous? <==> failed)
                && (indication.Working? <==> !failed && !none)
              else
                (indication.Idle? <==> completed) && (indication.Erroneous? <==> failed)
                && (indication.Working? <==> !failed && !completed)
  {
    if DistinctNames(statuses) {
      ActiveExactly(statuses, registered);
      DeletedExactly(statuses, registered);
    }
    if |registered| == 0 {
      if deleted { return Gone, ""; }
      return Idle, "";
    }
    var rows: map<string, StatusRow> := map[];
    for i := 0 to |statuses|
      invariant rows == RowsByName(statuses[..i])
    {
      assert statuses[..i + 1][..i] == statuses[..i];
      rows := rows[statuses[i].controller := statuses[i].row];
    }
    assert statuses[..|statuses|] == statuses;
    if deleted {
      indication, message := DeriveDeleted(rows, registered);
    } else {
      indication, message := DeriveActive(rows, registered);
    }
  }

  method DeriveDeleted(rows: map<string, StatusRow>, registered: seq<string>)
    returns (indication: Indication, message: string)
    ensures indication == Indicate(rows, true, SetOf(registered))
    ensures Explains(message, indication, rows, true, registered)
  {
    var hasAnyRow := false;
    for i := 0 to |registered|
      invariant hasAnyRow <==> exists j :: 0 <= j < i && registered[j] in rows
    {
      if registered[i] in rows {
        hasAnyRow := true;
        break;
      }
    }
    if !hasAnyRow {
      assert !SomeRow(rows, SetOf(registered));
      return Gone, "";
    }
    var waiting: seq<string> := [];
    for i := 0 to |registered|
      invariant waiting == Remaining(rows, registered[..i])
      invariant forall j :: 0 <= j < i ==> !(registered[j] in rows && rows[registered[j]].status.Failed?)
    {
      assert registered[..i + 1][..i] == registered[..i];
      var c := registered[i];
      if c in rows {
        if rows[c].status.Failed? {
          assert c in SetOf(registered);
          return Erroneous, rows[c].message;
        }
        waiting := waiting + [c];
      }
    }
    assert registered[..|registered|] == registered;
    message := "";
    if |waiting| > 0 {
      message := "deleting, waiting for: " + Join(waiting, ", ");
    }
    indication := Working;
    assert !SomeError(rows, SetOf(registered));
  }

  method DeriveActive(rows: map<string, StatusRow>, registered: seq<string>)
    returns (indication: Indication, message: string)
    ensures indication == Indicate(rows, false, SetOf(registered))
    ensures Explains(message, indication, rows, false, registered)
  {
    var pending: seq<string>, inProgress: seq<string> := [], [];
    for i := 0 to |registered|
      invariant pending == Missing(rows, registered[..i])
      invariant inProgress == Running(rows, registered[..i])
      invariant forall j :: 0 <= j < i ==> !(registered[j] in rows && rows[registered[j]].status.Failed?)
    {
      assert registered[..i + 1][..i] == registered[..i];
      var c := registered[i];
      if c !in rows {
        pending := pending + [c];
        continue;
      }
      if rows[c].status.Failed? {
        assert c in SetOf(registered);
        return Erroneous, rows[c].message;
      }
      if rows[c].status.InProgress? {
        inProgress := inProgress + [c];
      }
    }
    assert registered[..|registered|] == registered;
    FilterKeeps(registered, c => c !in rows);
    FilterKeeps(registered, c => c in rows && rows[c].status.InProgress?);
    assert !SomeError(rows, SetOf(registered));
    if |pending| > 0 || |inProgress| > 0 {
      var parts: seq<string> := [];
      if |pending| > 0 {
        assert pending[0] in pending;
        parts := parts + ["waiting for: " + Join(pending, ", ")];
      }
      if |inProgress| > 0 {
        assert inProgress[0] in inProgress;
        parts := parts + ["in progress: " + Join(inProgress, ", ")];
      }
      return Working, Join(parts, "; ");
    }
    return Idle, "";
  }

  // --- What does not matter ---

  /** Neither the order of the rows, nor the order of the registered controllers or how often one is
      listed, nor the rows of unregistered controllers change the indication. */
  lemma OnlyRegisteredRowsMatter(a: seq<Report>, b: seq<Report>, deleted: bool, r: seq<string>, s: seq<string>)
    requires DistinctNames(a) && DistinctNames(b)
    requires forall x: Report :: x.controller in r ==> (x in a <==> x in b)
    requires forall c :: c in r <==> c in s
    ensures Indicate(RowsByName(a), deleted, SetOf(r)) == Indicate(RowsByName(b), deleted, SetOf(s))
  {
    var x, y := RowsByName(a), RowsByName(b);
    assert SetOf(r) == SetOf(s);
    forall c | c in SetOf(r) ensures (c in x <==> c in y) && (c in x ==> x[c] == y[c]) {
      RowsByNameIsLookup(a, c);
      RowsByNameIsLookup(b, c);
      if c in x {
        var i :| 0 <= i < |a| && a[i].controller == c;
        assert a[i] in b;
      }
      if c in y {
        var i :| 0 <= i < |b| && b[i].controller == c;
        assert b[i] in a;
      }
    }
    assert AllCompleted(x, SetOf(r)) <==> AllCompleted(y, SetOf(r));
  }

  /** The controllers an in-progress message names: the ones without a row and the ones still running,
      which are exactly the registered ones that have not completed when none has failed. */
  lemma MessageNamesTheUnfinished(rows: map<string, StatusRow>, registered: seq<string>)
    requires Indicate(rows, false, SetOf(registered)) == Working
    ensures forall c :: c in Missing(rows, registered) || c in Running(rows, registered) <==>
                        c in registered && !(c in rows && rows[c].status.Completed?)
    ensures Missing(rows, registered) != [] || Running(rows, registered) != []
    ensures IsSubsequence(Missing(rows, registered), registered) && IsSubsequence(Running(rows, registered), registered)
  {
    FilterKeeps(registered, c => c !in rows);
    FilterKeeps(registered, c => c in rows && rows[c].status.InProgress?);
    forall c | c in registered ensures !(c in rows && rows[c].status.Failed?) { assert c in SetOf(registered); }
    var c :| c in SetOf(registered) && !(c in rows && rows[c].status.Completed?);
    assert c in Missing(rows, registered) || c in Running(rows, registered);
  }

  /** And those the message of a deleted resource names: the registered ones that still have a row, of
      which there is one, and none of them has failed. */
  lemma MessageNamesTheRemaining(rows: map<string, StatusRow>, registered: seq<string>)
    requires Indicate(rows, true, SetOf(registered)) == Working
    ensures forall c :: c in Remaining(rows, registered) <==> c in registered && c in rows
    ensures forall c :: c in Remaining(rows, registered) ==> !rows[c].status.Failed?
    ensures Remaining(rows, registered) != [] && IsSubsequence(Remaining(rows, registered), registered)
  {
    FilterKeeps(registered, c => c in rows);
    var c :| c in SetOf(registered) && c in rows;
    assert c in Remaining(rows, registered);
    forall c | c in registered && c in rows ensures !rows[c].status.Failed? { assert c in SetOf(registered); }
  }
}
