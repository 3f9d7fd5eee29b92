/** A polling controller that nobody disturbs makes progress until it has caught up. */
module CatchingUp {
  import opened Tenancy
  import opened EventLog
  import opened Worlds
  import opened Paging
  import opened Controllers

  /** How many events of replay and log are still to be handled. */
  function Behind(w: World, c: Controller): int {
    |c.replay| + |w.log| - c.start - |c.delivered|
  }

  /** A session that polls, and has lost nothing nor is about to. */
  ghost predicate OnTrack(w: World, c: Controller) {
    ControllerInv(w, c) && c.phase.Polling? && !c.lost && Base(w) <= Position(c)
  }

  lemma BehindIsBounded(w: World, c: Controller)
    requires OnTrack(w, c)
    ensures Behind(w, c) >= |c.backlog|
    ensures Behind(w, c) == 0 <==> CaughtUp(w, c)
  {
    assert |c.delivered + c.backlog| <= |c.replay + w.log[c.start..]|;
  }

  lemma DeliverCloser(w: World, c: Controller)
    requires EventsInv(w) && OnTrack(w, c) && c.backlog != []
    ensures OnTrack(w, Deliver(c)) && Behind(w, Deliver(c)) == Behind(w, c) - 1
  {
    DeliverKeepsInv(w, c);
  }

  lemma FetchFinds(w: World, c: Controller)
    requires IsSuffix(w.db.events, w.log) && CursorOk(w, c) && Base(w) <= Position(c) < |w.log|
    requires c.phase.Polling? && c.backlog == [] && !c.lost
    ensures Fetch(w, c, 1).backlog != [] && !Fetch(w, c, 1).lost
  {
    var i := Position(c) - Base(w);
    assert w.db.events[i] == w.log[Position(c)];
    AfterFinds(w.db.events, c.cursor, i);
  }

  lemma FetchCloser(w: World, c: Controller)
    requires EventsInv(w) && OnTrack(w, c) && c.backlog == [] && Behind(w, c) > 0
    ensures var c' := Fetch(w, c, 1); OnTrack(w, c') && c'.backlog != [] && Behind(w, c') == Behind(w, c)
  {
    FetchKeepsInv(w, c, 1);
    FetchFinds(w, c);
  }

  lemma {:induction false} AfterFinds(events: seq<Event>, cursor: nat, i: nat)
    requires i < |events| && events[i].id > cursor
    ensures After(events, cursor) != []
    decreases |events|
  {
    if i > 0 { AfterFinds(events[1..], cursor, i - 1); }
  }

  /** One event fetched, if need be, and handled. */
  function Round(w: World, c: Controller): Controller {
    Deliver(if c.backlog == [] then Fetch(w, c, 1) else c)
  }

  function Drain(w: World, c: Controller, n: nat): Controller
    decreases n
  {
    if n == 0 then c else Drain(w, Round(w, c), n - 1)
  }

  lemma RoundCloser(w: World, c: Controller)
    requires EventsInv(w) && OnTrack(w, c) && Behind(w, c) > 0
    ensures OnTrack(w, Round(w, c)) && Behind(w, Round(w, c)) == Behind(w, c) - 1
  {
    if c.backlog == [] {
      FetchCloser(w, c);
      DeliverCloser(w, Fetch(w, c, 1));
    } else {
      DeliverCloser(w, c);
    }
  }

  /** Something every round keeps, while it brings the controller one event closer, is kept until
      nothing is left. */
  lemma {:induction false} DrainKeeps(w: World, c: Controller, n: nat, kept: Controller -> bool)
    requires kept(c) && Behind(w, c) == n
    requires forall x :: kept(x) && Behind(w, x) > 0 ==> kept(Round(w, x)) && Behind(w, Round(w, x)) == Behind(w, x) - 1
    ensures kept(Drain(w, c, n)) && Behind(w, Drain(w, c, n)) == 0
    decreases n
  {
    if n > 0 { DrainKeeps(w, Round(w, c), n - 1, kept); }
  }

  /** Left alone, a polling controller catches up once it has handled what it is behind, and then
      regards as existing exactly the live resources and the orphans. */
  lemma CatchesUp(w: World, c: Controller)
    requires EventsInv(w) && OnTrack(w, c)
    ensures Behind(w, c) >= 0
    ensures var c' := Drain(w, c, Behind(w, c));
            OnTrack(w, c') && CaughtUp(w, c') && c'.regarded == w.View().live + Orphans(w, c')
  {
    BehindIsBounded(w, c);
    var kept := x => OnTrack(w, x);
    forall x | kept(x) && Behind(w, x) > 0 ensures kept(Round(w, x)) && Behind(w, Round(w, x)) == Behind(w, x) - 1 {
      RoundCloser(w, x);
    }
    DrainKeeps(w, c, Behind(w, c), kept);
    var c' := Drain(w, c, Behind(w, c));
    BehindIsBounded(w, c');
    Converges(w, c');
  }
}
