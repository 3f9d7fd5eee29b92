/** Every call of the store's operations, as the class performs them, is an action of the fleet or a run of
    such actions: what is proved of all runs holds of the operations. */
module Operations {
  import opened Tenancy
  import opened Worlds
  import opened Fleets
  import opened Stores
  import T = Transactions
  import C = Cleanup
  import L = Cleaners

  /** What the operation that a request asks for must do. */
  ghost function Specified(w: World, a: Action): Result<World> {
    match a
    case CreateOrg(name, description, o, f, now) => T.CreateOrg(w, name, description, o, f, now)
    case CreateProject(orgName, name, description, p, now) => T.CreateProject(w, orgName, name, description, p, now)
    case UpdateOrg(name, description) => T.UpdateOrg(w, name, description)
    case UpdateProject(name, scope, description) => T.UpdateProject(w, name, scope, description)
    case DeleteOrg(name, order, now) => T.DeleteOrg(w, name, order, now)
    case DeleteProject(name, scope, now) => T.DeleteProject(w, name, scope, now)
    case _ => Ok(w)
  }

  /** What is assumed of clocks and of fresh UUIDs when it is called. */
  ghost predicate Callable(w: World, a: Action) {
    match a
    case CreateOrg(_, _, o, f, now) => Timely(w, now) && Fresh(w, o) && Fresh(w, f) && o != f
    case CreateProject(_, _, _, p, now) => Timely(w, now) && Fresh(w, p)
    case UpdateOrg(_, _) => true
    case UpdateProject(_, _, _) => true
    case DeleteOrg(_, _, now) => Timely(w, now)
    case DeleteProject(_, _, now) => Timely(w, now)
    case _ => false
  }

  /** Whatever a call of a request's operation makes of the store, with success or with an error, some
      action of the fleet makes of it, and touches nothing else. */
  lemma CallIsAction<R>(s: Fleet, a: Action, w': World, r: Result<R>, reliable: bool) returns (b: Action)
    requires Callable(s.w, a) && Outcome(s.w, w', Specified(s.w, a), r, reliable)
    ensures Next(s, b) == s.(w := w')
    ensures r.Ok? ==> b == a
  {
    b := if r.Ok? then a else Burn(w'.nextId - s.w.nextId);
  }

  /** So do clean-up and the calls for status rows. */
  lemma HousekeepingIsAction(s: Fleet, cutoff: int, k: StatusKey, row: StatusRow)
    ensures Next(s, Action.Truncate(cutoff)) == s.(w := Worlds.Truncate(s.w, cutoff))
    ensures Next(s, Report(k, row)) == s.(w := s.w.(db := s.w.db.(statuses := s.w.db.statuses[k := row])))
    ensures Next(s, Withdraw(k)) == s.(w := s.w.(db := s.w.db.(statuses := s.w.db.statuses - {k})))
  {
  }

  lemma {:induction false} StatementsAreRun(s: Fleet, id: nat, projects: seq<Uuid>, orgs: seq<Uuid>, n: nat)
    returns (actions: seq<Action>)
    ensures var (w', c') := L.Advance(s.w, s.cfg, CleanerOf(s, id), projects, orgs, n);
            && Run(s, actions).w == w' && CleanerOf(Run(s, actions), id) == c'
            && Run(s, actions).ctl == s.ctl && forall a :: a in actions ==> a.Clean? && a.cleaner == id
    decreases n
  {
    actions := [];
    if n > 0 {
      var a := Clean(id, if CleanerOf(s, id).Idle? then projects else orgs, true);
      var rest := StatementsAreRun(Next(s, a), id, projects, orgs, n - 1);
      RunFrom(s, a, rest);
      actions := [a] + rest;
    }
  }

  lemma {:induction false} RunFrom(s: Fleet, a: Action, rest: seq<Action>)
    ensures Run(s, [a] + rest) == Run(Next(s, a), rest)
    decreases |rest|
  {
    if rest == [] {
      assert [a] + rest == [a] && [a][..0] == [];
    } else {
      var n := |rest| - 1;
      RunFrom(s, a, rest[..n]);
      assert ([a] + rest)[..n + 1] == [a] + rest[..n];
    }
  }

  /** A pass of hard deletion in which nothing fails, made without interruption, is a run of the statements
      of a cleaner. */
  lemma PassIsRun(s: Fleet, id: nat, projects: seq<Uuid>, orgs: seq<Uuid>) returns (actions: seq<Action>)
    requires CleanerOf(s, id).Idle? && Lists(projects, DeletedProjects(s.w.db)) && Lists(orgs, DeletedOrgs(s.w.db))
    ensures Run(s, actions).w == s.w.(db := C.Sweep(s.w.db, s.cfg)) && CleanerOf(Run(s, actions), id).Idle?
    ensures forall a :: a in actions ==> a.Clean? && a.cleaner == id
  {
    var n := L.UndisturbedPassIsSweep(s.w, s.cfg, projects, orgs);
    actions := StatementsAreRun(s, id, projects, orgs, n);
  }
}
