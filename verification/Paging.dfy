/** Reading the event table by cursor. */
module Paging {
  import opened Tenancy

  /** The events of the table beyond a cursor. */
  function After(events: seq<Event>, cursor: nat): seq<Event> {
    if events == [] then []
    else (if events[0].id > cursor then [events[0]] else []) + After(events[1..], cursor)
  }

  function Page(events: seq<Event>, cursor: nat, limit: nat): seq<Event> {
    var rest := After(events, cursor);
    if |rest| <= limit then rest else rest[..limit]
  }

  function LastId(page: seq<Event>, cursor: nat): nat {
    if page == [] then cursor else page[|page| - 1].id
  }

  ghost predicate Ascending(events: seq<Event>) {
    forall i, j :: 0 <= i < j < |events| ==> events[i].id < events[j].id
  }

  /** In a table in ascending order the cursor cuts once. */
  lemma {:induction false} AfterIsSuffix(events: seq<Event>, cursor: nat, k: nat)
    requires k <= |events|
    requires forall i :: 0 <= i < k ==> events[i].id <= cursor
    requires forall i :: k <= i < |events| ==> events[i].id > cursor
    ensures After(events, cursor) == events[k..]
    decreases |events|
  {
    if events != [] {
      if k == 0 {
        AfterIsSuffix(events[1..], cursor, 0);
      } else {
        AfterIsSuffix(events[1..], cursor, k - 1);
        assert events[1..][k - 1..] == events[k..];
      }
    }
  }

  /** Where the cursor cuts. */
  function Cut(events: seq<Event>, cursor: nat): (k: nat)
    ensures k <= |events|
  {
    if events == [] || events[0].id > cursor then 0 else 1 + Cut(events[1..], cursor)
  }

  lemma {:induction false} CutSeparates(events: seq<Event>, cursor: nat)
    requires Ascending(events)
    ensures forall i :: 0 <= i < Cut(events, cursor) ==> events[i].id <= cursor
    ensures forall i :: Cut(events, cursor) <= i < |events| ==> events[i].id > cursor
    ensures After(events, cursor) == events[Cut(events, cursor)..]
    decreases |events|
  {
    if events != [] && events[0].id <= cursor {
      CutSeparates(events[1..], cursor);
    }
    AfterIsSuffix(events, cursor, Cut(events, cursor));
  }

  lemma {:induction false} CutAtElement(events: seq<Event>, i: nat)
    requires Ascending(events) && i < |events|
    ensures Cut(events, events[i].id) == i + 1
    decreases i
  {
    if i > 0 {
      CutAtElement(events[1..], i - 1);
      assert events[0].id < events[i].id;
    } else if |events| > 1 {
      assert events[0].id < events[1].id;
    }
  }

  // --- The handler ---

  /** A query parameter: absent, not a 64-bit integer, or a number. */
  datatype Param = Absent | Malformed | Number(n: int)

  const DEFAULT_LIMIT := 100
  const MAX_LIMIT := 1000

  datatype Response = BadRequest | ServerError | Events(events: seq<Event>, lastEventId: nat)

  ghost predicate ValidQuery(controller: string, after: Param, limit: Param) {
    && controller != ""
    && (after.Absent? || (after.Number? && after.n >= 0))
    && (limit.Absent? || (limit.Number? && 1 <= limit.n <= MAX_LIMIT))
  }

  /** Incremental polling: an invalid query is refused, a valid one gets the next page of the table in
      ascending order and the cursor to continue from. */
  method PollEvents(table: seq<Event>, controller: string, after: Param, limit: Param) returns (r: Response)
    requires Ascending(table)
    ensures r.BadRequest? <==> !ValidQuery(controller, after, limit)
    ensures !r.ServerError?
    ensures r.Events? ==>
              var cursor := if after.Number? then after.n else 0;
              var bound := if limit.Number? then limit.n else DEFAULT_LIMIT;
              r.events == Page(table, cursor, bound) && r.lastEventId == LastId(r.events, cursor)
  {
    if controller == "" {
      return BadRequest;
    }
    var afterId: nat := 0;
    if !after.Absent? {
      if after.Malformed? || after.n < 0 {
        return BadRequest;
      }
      afterId := after.n;
    }
    var bound: nat := 100;
    if !limit.Absent? {
      if limit.Malformed? || limit.n <= 0 || limit.n > 1000 {
        return BadRequest;
      }
      bound := limit.n;
    }
    var rows := GetEventsAfter(table, afterId, bound);
    var events: seq<Event>, last: nat := [], afterId;
    for i := 0 to |rows|
      invariant events == rows[..i]
      invariant last == LastId(rows[..i], afterId)
    {
      events, last := events + [rows[i]], rows[i].id;
    }
    assert rows[..|rows|] == rows;
    return Events(events, last);
  }

  /** The query skips the rows up to the cursor and returns the next ones, up to the limit. */
  method GetEventsAfter(table: seq<Event>, cursor: nat, limit: nat) returns (rows: seq<Event>)
    requires Ascending(table)
    ensures rows == Page(table, cursor, limit)
  {
    CutSeparates(table, cursor);
    var i := 0;
    while i < |table| && table[i].id <= cursor
      invariant 0 <= i <= Cut(table, cursor)
    {
      i := i + 1;
    }
    rows := Take(table, i, limit);
  }

  method Take(table: seq<Event>, i: nat, limit: nat) returns (rows: seq<Event>)
    requires i <= |table|
    ensures rows == if |table| - i <= limit then table[i..] else table[i..][..limit]
  {
    rows := [];
    var j := i;
    while j < |table| && j - i < limit
      invariant i <= j <= |table| && j - i <= limit
      invariant rows == table[i..j]
    {
      rows, j := rows + [table[j]], j + 1;
    }
  }

  // --- Iteration ---

  /** Everything a client receives that polls once with each of the limits, continuing from the
      cursor each response gives it. */
  function Poll(table: seq<Event>, cursor: nat, limits: seq<nat>): seq<Event>
    decreases |limits|
  {
    if limits == [] then []
    else
      var page := Page(table, cursor, limits[0]);
      page + Poll(table, LastId(page, cursor), limits[1..])
  }

  function Sum(limits: seq<nat>): nat {
    if limits == [] then 0 else limits[0] + Sum(limits[1..])
  }

  /** What is beyond the cursor after a page is what was beyond it before, without the page. */
  lemma PageAdvances(table: seq<Event>, cursor: nat, limit: nat)
    requires Ascending(table)
    ensures After(table, cursor) ==
        Page(table, cursor, limit) + After(table, LastId(Page(table, cursor, limit), cursor))
  {
    var k := Cut(table, cursor);
    CutSeparates(table, cursor);
    var page := Page(table, cursor, limit);
    var next := k + |page|;
    SplitRest(table, k, |page|);
    assert page == table[k..next];
    if page != [] {
      assert page[|page| - 1] == table[next - 1];
      CutAtElement(table, next - 1);
      CutSeparates(table, table[next - 1].id);
    }
  }

  lemma SplitRest(table: seq<Event>, k: nat, n: nat)
    requires k + n <= |table|
    ensures table[k..][..n] == table[k..k + n]
    ensures table[k..] == table[k..k + n] + table[k + n..]
  {
  }

  /** Paging is exact: polling a fixed table delivers the events beyond the cursor in ascending order,
      each once, up to the sum of the limits; so with limits of at least 1 it has delivered all of them
      after as many polls as there are events. */
  lemma {:induction false} PollingIsExact(table: seq<Event>, cursor: nat, limits: seq<nat>)
    requires Ascending(table)
    ensures var rest := After(table, cursor);
            Poll(table, cursor, limits) == if |rest| <= Sum(limits) then rest else rest[..Sum(limits)]
    decreases |limits|
  {
    if limits != [] {
      var page := Page(table, cursor, limits[0]);
      PageAdvances(table, cursor, limits[0]);
      PollingIsExact(table, LastId(page, cursor), limits[1..]);
    }
  }

  lemma {:induction false} EnoughPolls(table: seq<Event>, cursor: nat, limits: seq<nat>)
    requires Ascending(table)
    requires |limits| >= |After(table, cursor)| && forall l :: l in limits ==> 1 <= l <= MAX_LIMIT
    ensures Poll(table, cursor, limits) == After(table, cursor)
    ensures Ascending(Poll(table, cursor, limits))
    ensures forall e :: e in Poll(table, cursor, limits) <==> e in table && e.id > cursor
  {
    SumBound(limits);
    PollingIsExact(table, cursor, limits);
    CutSeparates(table, cursor);
    var k := Cut(table, cursor);
    forall e | e in table && e.id > cursor ensures e in table[k..] {
      var i :| 0 <= i < |table| && table[i] == e;
      assert i >= k;
      assert table[k..][i - k] == e;
    }
  }

  lemma {:induction false} SumBound(limits: seq<nat>)
    requires forall l :: l in limits ==> 1 <= l
    ensures Sum(limits) >= |limits|
    decreases |limits|
  {
    if limits != [] {
      assert limits[0] in limits && forall l :: l in limits[1..] ==> l in limits;
      SumBound(limits[1..]);
    }
  }
}
