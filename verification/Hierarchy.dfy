/** Exactly when interleaved creations and deletions keep the hierarchy of orgs and projects, and what
    callers can do about it. */
module Hierarchies {
  import opened Tenancy
  import opened CompareAndSet

  // --- Exactly when it holds ---

  ghost predicate Hierarchical(s: State) {
    forall p :: p in s.parent && Active(s, p) ==> Active(s, s.parent[p])
  }

  /** A project is inserted only while its org is still active, and a deletion of an org commits only when
      it has found every project that is active under the org. */
  ghost predicate Safe(s: State, a: Action) {
    && (a.Insert? && Inserts(s, a.r) ==> Active(s, s.pending[a.r]))
    && (a.Commit? && TxOf(s, a.t).Finishing? ==>
          forall p :: p in s.parent && s.parent[p] == TxOf(s, a.t).goal && Active(s, p) ==> p in TxOf(s, a.t).found)
  }

  /** A committing transaction deletes its goal and the active rows it found, no other org and no other
      row. */
  lemma HeldByFinishing(s: State, tx: Tx)
    requires Inv(s) && TxOk(s, tx) && tx.Finishing? && forall r :: r in tx.found ==> r.kind.ProjectKind?
    ensures forall r :: r in tx.held ==> r == tx.goal || r in tx.found
    ensures forall p :: p in tx.found && Active(s, p) ==> p in tx.held
    ensures forall r :: r in tx.held && r.kind.OrgKind? ==> r == tx.goal
  {
  }

  lemma CommitHierarchyExactly(s: State, t: nat)
    requires Inv(s) && Books(s) && Hierarchical(s) && TxOf(s, t).Finishing?
    ensures Hierarchical(Next(s, Commit(t))) <==> Safe(s, Commit(t))
  {
    var tx, s' := TxOf(s, t), Next(s, Commit(t));
    assert TxOk(s, tx) && Registered(s.deletions, tx) && ProperlyFound(s, s.deletions[tx.n]);
    HeldByFinishing(s, tx);
    assert forall r :: Active(s', r) <==> Active(s, r) && r !in tx.held;
    forall p | p in s.parent && s.parent[p] == tx.goal && Active(s, p) ensures Active(s', p) <==> p !in tx.found {
      assert p.kind.ProjectKind? && tx.goal.kind.OrgKind?;
    }
  }

  lemma InsertHierarchyExactly(s: State, r: Resource)
    requires Inv(s) && Hierarchical(s)
    ensures Hierarchical(Next(s, Insert(r))) <==> Safe(s, Insert(r))
  {
    var s' := Next(s, Insert(r));
    if Inserts(s, r) {
      assert r in s'.parent && Active(s', r) && s'.parent[r] == s.pending[r];
      assert Active(s', s.pending[r]) <==> Active(s, s.pending[r]);
    }
  }

  /** Before its commit a deletion changes no row that others see. */
  lemma DeletionsKeepRows(s: State, a: Action)
    requires a.Begin? || a.List? || a.Update? || a.Write? || a.Abort?
    ensures Next(s, a).rows == s.rows && Next(s, a).parent == s.parent && Next(s, a).pending == s.pending
  {
  }

  lemma RowsKeepHierarchy(s: State, a: Action)
    requires LogOk(s) && Hierarchical(s) && (a.CreateOrg? || a.LookUp? || a.GiveUp? || a.Erase?)
    ensures Hierarchical(Next(s, a))
  {
    var s' := Next(s, a);
    forall p | p in s'.parent && Active(s', p) ensures Active(s', s'.parent[p]) {
      assert Active(s, p) && Active(s, s.parent[p]);
    }
  }

  /** A step breaks the hierarchy exactly when it is not safe. */
  lemma StepHierarchyExactly(s: State, a: Action)
    requires Inv(s) && Books(s) && Hierarchical(s)
    ensures Hierarchical(Next(s, a)) <==> Safe(s, a)
  {
    if a.Insert? {
      InsertHierarchyExactly(s, a.r);
    } else if a.Commit? {
      if TxOf(s, a.t).Finishing? { CommitHierarchyExactly(s, a.t); }
    } else if a.CreateOrg? || a.LookUp? || a.GiveUp? || a.Erase? {
      RowsKeepHierarchy(s, a);
    } else {
      DeletionsKeepRows(s, a);
    }
  }

  /** The state after the first i actions. */
  ghost function At(actions: seq<Action>, i: nat): State
    requires i <= |actions|
  {
    Run(INIT, actions[..i])
  }

  ghost predicate SafeRun(actions: seq<Action>) {
    forall i :: 0 <= i < |actions| ==> Safe(At(actions, i), actions[i])
  }

  ghost predicate AlwaysHierarchical(actions: seq<Action>) {
    forall i :: 0 <= i <= |actions| ==> Hierarchical(At(actions, i))
  }

  lemma SamePrefix(actions: seq<Action>, n: nat)
    requires n <= |actions|
    ensures forall i :: 0 <= i <= n ==> At(actions[..n], i) == At(actions, i)
  {
    forall i | 0 <= i <= n ensures At(actions[..n], i) == At(actions, i) { assert actions[..n][..i] == actions[..i]; }
  }

  lemma SafePrefix(actions: seq<Action>, n: nat)
    requires |actions| == n + 1
    ensures SafeRun(actions) <==> SafeRun(actions[..n]) && Safe(At(actions, n), actions[n])
  {
    SamePrefix(actions, n);
  }

  lemma HierarchicalPrefix(actions: seq<Action>, n: nat)
    requires |actions| == n + 1
    ensures AlwaysHierarchical(actions) <==> AlwaysHierarchical(actions[..n]) && Hierarchical(At(actions, n + 1))
    ensures AlwaysHierarchical(actions[..n]) ==> Hierarchical(At(actions, n))
  {
    SamePrefix(actions, n);
    assert At(actions[..n], n) == At(actions, n);
  }

  lemma LastStep(actions: seq<Action>, n: nat)
    requires |actions| == n + 1 && Hierarchical(At(actions, n))
    ensures Hierarchical(At(actions, n + 1)) <==> Safe(At(actions, n), actions[n])
  {
    RunKeepsBooks(actions[..n]);
    StepHierarchyExactly(At(actions, n), actions[n]);
    assert actions[..n + 1] == actions;
  }

  /** A run never has an active project under a deleted or missing org if and only if each of its steps is
      safe. */
  lemma {:induction false} HierarchyExactly(actions: seq<Action>)
    ensures AlwaysHierarchical(actions) <==> SafeRun(actions)
    decreases |actions|
  {
    if actions != [] {
      var n := |actions| - 1;
      HierarchyExactly(actions[..n]);
      SafePrefix(actions, n);
      HierarchicalPrefix(actions, n);
      if Hierarchical(At(actions, n)) { LastStep(actions, n); }
    }
  }

  // --- A condition that callers can see to ---

  ghost predicate UnderWay(s: State, org: Resource) {
    exists t :: t in s.txs && !s.txs[t].Idle? && s.txs[t].goal == org
  }

  /** No creation looks up an org while a deletion of it is under way, and no deletion of an org begins
      while a creation that has found it is pending. */
  ghost predicate Quiet(s: State, a: Action) {
    && (a.LookUp? ==> !UnderWay(s, a.org))
    && (a.Begin? ==> forall p :: p in s.pending ==> s.pending[p] != a.goal)
  }

  ghost predicate QuietRun(actions: seq<Action>) {
    forall i :: 0 <= i < |actions| ==> Quiet(At(actions, i), actions[i])
  }

  /** A deletion under way has found every active project of its goal. */
  ghost predicate Covers(s: State, tx: Tx) {
    !tx.Idle? && !tx.Querying? ==>
      forall p :: p in s.parent && s.parent[p] == tx.goal && Active(s, p) ==> p in tx.found
  }

  ghost predicate Covered(s: State) {
    && (forall t :: t in s.txs ==> Covers(s, s.txs[t]))
    && (forall p :: p in s.pending ==> Active(s, s.pending[p]) && !UnderWay(s, s.pending[p]))
  }

  lemma CoveredIsSafe(s: State, a: Action)
    requires Covered(s)
    ensures Safe(s, a)
  {
    if a.Commit? && TxOf(s, a.t).Finishing? { assert Covers(s, s.txs[a.t]); }
  }

  lemma InsertStaysCovered(s: State, r: Resource)
    requires LogOk(s) && Covered(s)
    ensures Covered(Next(s, Insert(r)))
  {
    var s' := Next(s, Insert(r));
    forall t | t in s'.txs ensures Covers(s', s'.txs[t]) {
      assert Covers(s, s.txs[t]);
      assert Inserts(s, r) && !s.txs[t].Idle? ==> s.txs[t].goal != s.pending[r];
    }
    forall p | p in s'.pending ensures Active(s', s'.pending[p]) && !UnderWay(s', s'.pending[p]) {
      assert !UnderWay(s, s'.pending[p]);
    }
  }

  lemma PendingStayCovered(s: State, a: Action)
    requires Covered(s) && Quiet(s, a) && (a.CreateOrg? || a.LookUp? || a.GiveUp? || a.Erase?)
    ensures var s' := Next(s, a);
            forall p :: p in s'.pending ==> Active(s', s'.pending[p]) && !UnderWay(s, s'.pending[p])
  {
  }

  lemma RowsStayCovered(s: State, a: Action)
    requires LogOk(s) && Covered(s) && Quiet(s, a) && (a.CreateOrg? || a.LookUp? || a.GiveUp? || a.Erase?)
    ensures Covered(Next(s, a))
  {
    var s' := Next(s, a);
    forall t | t in s'.txs ensures Covers(s', s'.txs[t]) { assert Covers(s, s.txs[t]); }
    PendingStayCovered(s, a);
    assert forall org :: UnderWay(s', org) ==> UnderWay(s, org);
  }

  /** A transaction moves on without touching rows. */
  lemma MoveStaysCovered(s: State, t: nat, tx: Tx, deletions: seq<Deletion>)
    requires Covered(s) && Covers(s, tx)
    requires !tx.Idle? ==> forall p :: p in s.pending ==> s.pending[p] != tx.goal
    ensures Covered(WithTx(s, t, tx).(deletions := deletions))
  {
    var s' := WithTx(s, t, tx).(deletions := deletions);
    forall u | u in s'.txs ensures Covers(s', s'.txs[u]) {
      assert u != t ==> Covers(s, s.txs[u]);
    }
    forall p | p in s'.pending ensures Active(s', s'.pending[p]) && !UnderWay(s', s'.pending[p]) {
      assert !UnderWay(s, s.pending[p]);
    }
  }

  /** The goal of a transaction under way is not the org of a pending creation. */
  lemma GoalIsNotPending(s: State, t: nat)
    requires Covered(s) && !TxOf(s, t).Idle?
    ensures Covers(s, TxOf(s, t)) && forall p :: p in s.pending ==> s.pending[p] != TxOf(s, t).goal
  {
    forall p | p in s.pending ensures s.pending[p] != TxOf(s, t).goal {
      assert !UnderWay(s, s.pending[p]);
    }
  }

  lemma ListStaysCovered(s: State, t: nat, todo: seq<Resource>)
    requires Inv(s) && Covered(s)
    ensures Covered(Next(s, List(t, todo)))
  {
    var tx := TxOf(s, t);
    if tx.Querying? && Lists(todo, Cascade(s, tx.goal)) {
      GoalIsNotPending(s, t);
      var next := Updating(tx.n, tx.goal, Elements(todo), todo, [], {});
      forall p | p in s.parent && s.parent[p] == tx.goal && Active(s, p) ensures p in next.found {
        assert p in Cascade(s, tx.goal);
      }
      MoveStaysCovered(s, t, next, Listed(s, t, tx, todo).deletions);
    }
  }

  lemma UpdateStaysCovered(s: State, t: nat)
    requires Covered(s) && TxOf(s, t).Updating?
    ensures Covered(UpdateNext(s, t, TxOf(s, t)))
  {
    var tx := TxOf(s, t);
    var r := if tx.todo == [] then tx.goal else tx.todo[0];
    GoalIsNotPending(s, t);
    if !LockedByOther(s, t, r) {
      if Active(s, r) && r !in tx.held {
        var rest := if tx.todo == [] then [] else tx.todo[1..];
        MoveStaysCovered(s, t, Writing(tx.n, tx.goal, tx.found, rest, tx.held, tx.done, r), s.deletions);
      } else if tx.todo == [] {
        MoveStaysCovered(s, t, Idle, Concluded(s.deletions, tx, RolledBack));
      } else {
        MoveStaysCovered(s, t, Updating(tx.n, tx.goal, tx.found, tx.todo[1..], tx.held, tx.done + {r}), s.deletions);
      }
    }
  }

  lemma WriteStaysCovered(s: State, t: nat)
    requires Covered(s) && TxOf(s, t).Writing?
    ensures Covered(Next(s, Write(t)))
  {
    var tx := TxOf(s, t);
    var held, done := tx.held + [tx.row], tx.done + {tx.row};
    GoalIsNotPending(s, t);
    if tx.row == tx.goal {
      MoveStaysCovered(s, t, Finishing(tx.n, tx.goal, tx.found, held, done), s.deletions);
    } else {
      MoveStaysCovered(s, t, Updating(tx.n, tx.goal, tx.found, tx.todo, held, done), s.deletions);
    }
  }

  lemma CommitStaysCovered(s: State, t: nat)
    requires Inv(s) && Books(s) && Covered(s) && TxOf(s, t).Finishing?
    ensures Covered(Next(s, Commit(t)))
  {
    var tx, s' := TxOf(s, t), Next(s, Commit(t));
    assert TxOk(s, tx) && Registered(s.deletions, tx) && ProperlyFound(s, s.deletions[tx.n]);
    HeldByFinishing(s, tx);
    GoalIsNotPending(s, t);
    forall u | u in s'.txs ensures Covers(s', s'.txs[u]) {
      assert u != t ==> Covers(s, s.txs[u]);
    }
    forall p | p in s'.pending ensures Active(s', s'.pending[p]) && !UnderWay(s', s'.pending[p]) {
      assert Active(s, s.pending[p]) && !UnderWay(s, s.pending[p]);
    }
  }

  lemma StepStaysCovered(s: State, a: Action)
    requires Inv(s) && Books(s) && Covered(s) && Quiet(s, a)
    ensures Covered(Next(s, a))
  {
    match a
    case CreateOrg(_) => RowsStayCovered(s, a);
    case LookUp(_, _) => RowsStayCovered(s, a);
    case Insert(r) => InsertStaysCovered(s, r);
    case GiveUp(_) => RowsStayCovered(s, a);
    case Erase(_) => RowsStayCovered(s, a);
    case Begin(t, goal) =>
      if TxOf(s, t).Idle? && Active(s, goal) {
        MoveStaysCovered(s, t, Querying(|s.deletions|, goal), s.deletions + [Deletion(goal, {}, Open)]);
      }
    case List(t, todo) => ListStaysCovered(s, t, todo);
    case Update(t) => if TxOf(s, t).Updating? { UpdateStaysCovered(s, t); }
    case Write(t) => if TxOf(s, t).Writing? { WriteStaysCovered(s, t); }
    case Commit(t) => if TxOf(s, t).Finishing? { CommitStaysCovered(s, t); }
    case Abort(t) => MoveStaysCovered(s, t, Idle, Concluded(s.deletions, TxOf(s, t), RolledBack));
  }

  lemma {:induction false} QuietRunsAreSafe(actions: seq<Action>)
    requires QuietRun(actions)
    ensures Covered(Run(INIT, actions)) && SafeRun(actions)
    decreases |actions|
  {
    if actions != [] {
      var n := |actions| - 1;
      SamePrefix(actions, n);
      QuietRunsAreSafe(actions[..n]);
      RunKeepsBooks(actions[..n]);
      CoveredIsSafe(At(actions, n), actions[n]);
      StepStaysCovered(At(actions, n), actions[n]);
    }
  }

  /** In every run in which creations under an org and deletions of it keep apart, from the look-up of the
      one to its commit and from the first query of the other to its end, no active project is ever under a
      deleted or missing org, however else the statements interleave. */
  lemma QuietRunsKeepHierarchy(actions: seq<Action>)
    requires QuietRun(actions)
    ensures AlwaysHierarchical(actions)
  {
    QuietRunsAreSafe(actions);
    HierarchyExactly(actions);
  }

  // --- Without it ---

  lemma RunAppend(s: State, actions: seq<Action>, a: Action)
    ensures Run(s, actions + [a]) == Next(Run(s, actions), a)
  {
    assert (actions + [a])[..|actions|] == actions;
  }

  lemma {:induction false} RunConcat(s: State, a: seq<Action>, b: seq<Action>)
    ensures Run(s, a + b) == Run(Run(s, a), b)
    decreases |b|
  {
    if b == [] {
      assert a + b == a;
    } else {
      RunConcat(s, a, b[..|b| - 1]);
      assert (a + b)[..|a + b| - 1] == a + b[..|b| - 1];
    }
  }

  /** Nobody else holds a lock. */
  ghost predicate Unhindered(s: State, t: nat) { forall u :: u in s.txs && u != t ==> Holds(s.txs[u]) == {} }

  /** One row is dealt with: updated and its event written, or passed over. */
  ghost function Push(s: State, t: nat): State { Next(Next(s, Update(t)), Write(t)) }

  lemma UpdateIsNext(s: State, t: nat)
    requires TxOf(s, t).Updating? && Unhindered(s, t)
    ensures var tx, s' := TxOf(s, t), UpdateNext(s, t, TxOf(s, t));
            var r := if tx.todo == [] then tx.goal else tx.todo[0];
            var rest := if tx.todo == [] then [] else tx.todo[1..];
            && Unhindered(s', t)
            && (Active(s, r) && r !in tx.held ==>
                  s' == WithTx(s, t, Writing(tx.n, tx.goal, tx.found, rest, tx.held, tx.done, r)))
            && (tx.todo != [] && !(Active(s, r) && r !in tx.held) ==>
                  s' == WithTx(s, t, Updating(tx.n, tx.goal, tx.found, rest, tx.held, tx.done + {r})))
  {
    var tx := TxOf(s, t);
    var r := if tx.todo == [] then tx.goal else tx.todo[0];
    assert !LockedByOther(s, t, r);
  }

  /** What a transaction is about to do has not been done. */
  lemma GoalIsFree(s: State, tx: Tx)
    requires LogOk(s) && TxOk(s, tx) && tx.Updating?
    ensures Active(s, tx.goal) && tx.todo == [] ==> tx.goal !in tx.held
    ensures tx.todo != [] ==> tx.todo[0] != tx.goal
  {
    assert tx.todo != [] ==> tx.todo[0] in Elements(tx.todo);
  }

  lemma PushMovesOn(s: State, t: nat)
    requires LogOk(s) && TxOf(s, t).Updating? && TxOk(s, TxOf(s, t)) && Unhindered(s, t) && Active(s, TxOf(s, t).goal)
    ensures var s', tx, tx' := Push(s, t), TxOf(s, t), TxOf(Push(s, t), t);
            && Unhindered(s', t)
            && s'.rows == s.rows && s'.parent == s.parent && s'.pending == s.pending && s'.born == s.born
            && (if tx.todo == [] then tx'.Finishing? else tx'.Updating? && tx'.todo == tx.todo[1..])
            && tx'.goal == tx.goal && tx'.found == tx.found
  {
    UpdateIsNext(s, t);
    GoalIsFree(s, TxOf(s, t));
  }

  /** A deletion that nobody hinders comes to its commit. */
  lemma {:induction false} ComesToCommit(s: State, t: nat) returns (actions: seq<Action>)
    requires Inv(s) && TxOf(s, t).Updating? && Unhindered(s, t) && Active(s, TxOf(s, t).goal)
    ensures var s' := Run(s, actions);
            && Inv(s') && s'.rows == s.rows && s'.parent == s.parent && s'.pending == s.pending && s'.born == s.born
            && TxOf(s', t).Finishing? && TxOf(s', t).goal == TxOf(s, t).goal && TxOf(s', t).found == TxOf(s, t).found
    decreases |TxOf(s, t).todo|
  {
    PushMovesOn(s, t);
    StepKeepsInv(s, Update(t));
    StepKeepsInv(Next(s, Update(t)), Write(t));
    RunAppend(s, [], Update(t));
    RunAppend(s, [Update(t)], Write(t));
    assert [] + [Update(t)] == [Update(t)] && [Update(t)] + [Write(t)] == [Update(t), Write(t)];
    actions := [Update(t), Write(t)];
    if TxOf(s, t).todo != [] {
      var rest := ComesToCommit(Push(s, t), t);
      RunConcat(s, actions, rest);
      actions := actions + rest;
    }
  }

  /** Once it has committed the goal is deleted, and an active row it did not find is as it was. */
  lemma Commits(s: State, t: nat)
    requires TxOf(s, t).Finishing? && TxOk(s, TxOf(s, t))
    ensures var s' := Next(s, Commit(t));
            && !Active(s', TxOf(s, t).goal) && TxOf(s, t).goal in s'.rows
            && s'.parent == s.parent && s'.pending == s.pending && s'.born == s.born
            && forall p :: Active(s, p) && p != TxOf(s, t).goal && p !in TxOf(s, t).found ==> Active(s', p)
  {
    var tx := TxOf(s, t);
    assert tx.goal in Holds(tx);
    assert forall r :: r in tx.held ==> r in tx.done;
  }

  /** The first steps: a creation finds the org, a deletion of the org begins and lists its projects. */
  lemma BothBegin(s: State, t: nat, o: Resource, p: Resource, order: seq<Resource>) returns (s': State)
    requires TxOf(s, t).Idle? && o.kind.OrgKind? && Active(s, o) && Unhindered(s, t)
    requires Lists(order, Cascade(s, o)) && p.kind.ProjectKind? && p !in s.born && p !in s.pending
    ensures s' == Run(s, [LookUp(p, o), Begin(t, o), List(t, order)]) && Unhindered(s', t)
    ensures Inv(s) ==> Inv(s')
    ensures TxOf(s', t) == Updating(|s.deletions|, o, Elements(order), order, [], {})
    ensures s'.rows == s.rows && s'.parent == s.parent && s'.pending == s.pending[p := o] && s'.born == s.born
  {
    var looked := Next(s, LookUp(p, o));
    var begun := Next(looked, Begin(t, o));
    assert Cascade(begun, o) == Cascade(s, o);
    s' := Next(begun, List(t, order));
    ThreeSteps(s, LookUp(p, o), Begin(t, o), List(t, order));
    ThreeStepsKeepInv(s, LookUp(p, o), Begin(t, o), List(t, order));
  }

  lemma ThreeStepsKeepInv(s: State, a: Action, b: Action, c: Action)
    ensures Inv(s) ==> Inv(Next(Next(Next(s, a), b), c))
  {
    if Inv(s) {
      StepKeepsInv(s, a);
      StepKeepsInv(Next(s, a), b);
      StepKeepsInv(Next(Next(s, a), b), c);
    }
  }

  /** The project is inserted between the deletion's list of projects and its end. */
  lemma SlipsInEarly(s: State, t: nat, p: Resource) returns (rest: seq<Action>)
    requires Inv(s) && TxOf(s, t).Updating? && Unhindered(s, t) && Active(s, TxOf(s, t).goal)
    requires p in s.pending && p !in s.born && s.pending[p] == TxOf(s, t).goal
    ensures !Hierarchical(Run(s, [Insert(p)] + rest))
  {
    assert TxOk(s, TxOf(s, t));
    StepKeepsInv(s, Insert(p));
    rest := StaysUnder(Next(s, Insert(p)), t, p);
    RunAppend(s, [], Insert(p));
    assert [] + [Insert(p)] == [Insert(p)];
    RunConcat(s, [Insert(p)], rest);
  }

  /** A project that the deletion of its org has not found outlives it. */
  lemma StaysUnder(s: State, t: nat, p: Resource) returns (rest: seq<Action>)
    requires Inv(s) && TxOf(s, t).Updating? && Unhindered(s, t) && Active(s, TxOf(s, t).goal)
    requires p in s.parent && Active(s, p) && s.parent[p] == TxOf(s, t).goal
    requires p != TxOf(s, t).goal && p !in TxOf(s, t).found
    ensures !Hierarchical(Run(s, rest))
  {
    rest := ComesToCommit(s, t);
    var end := Run(s, rest);
    assert TxOk(end, TxOf(end, t));
    Commits(end, t);
    RunAppend(s, rest, Commit(t));
    rest := rest + [Commit(t)];
    assert p in end.parent && Active(Next(end, Commit(t)), p);
  }

  /** The project is inserted after the deletion has committed. */
  lemma SlipsInLate(s: State, t: nat, p: Resource) returns (rest: seq<Action>)
    requires Inv(s) && TxOf(s, t).Updating? && Unhindered(s, t) && Active(s, TxOf(s, t).goal)
    requires p in s.pending && p !in s.born && s.pending[p] == TxOf(s, t).goal
    ensures !Hierarchical(Run(s, rest + [Commit(t), Insert(p)]))
  {
    rest := ComesToCommit(s, t);
    var end := Run(s, rest);
    assert TxOk(end, TxOf(end, t));
    Commits(end, t);
    RunAppend(s, rest, Commit(t));
    RunAppend(s, rest + [Commit(t)], Insert(p));
    assert rest + [Commit(t)] + [Insert(p)] == rest + [Commit(t), Insert(p)];
    var s' := Next(Next(end, Commit(t)), Insert(p));
    assert p in s'.parent && Active(s', p) && s'.parent[p] == TxOf(s, t).goal;
  }

  /** Where creations and deletions do not keep apart, from every state with an active org, whatever
      projects it has, in which nobody else holds a lock: a project whose org was found before the deletion
      of the org began is inserted right after the deletion has listed the org's projects, or right after it
      has committed, and stays active under the deleted org. */
  lemma ProjectsSlipIn(s: State, t: nat, o: Resource, p: Resource, order: seq<Resource>)
    returns (early: seq<Action>, late: seq<Action>)
    requires Inv(s) && TxOf(s, t).Idle? && o.kind.OrgKind? && Active(s, o) && Unhindered(s, t)
    requires Lists(order, Cascade(s, o)) && p.kind.ProjectKind? && p !in s.born && p !in s.pending
    ensures !Hierarchical(Run(s, [LookUp(p, o), Begin(t, o), List(t, order)] + ([Insert(p)] + early)))
    ensures !Hierarchical(Run(s, [LookUp(p, o), Begin(t, o), List(t, order)] + (late + [Commit(t), Insert(p)])))
  {
    var s' := BothBegin(s, t, o, p, order);
    early := SlipsInEarly(s', t, p);
    late := SlipsInLate(s', t, p);
    RunConcat(s, [LookUp(p, o), Begin(t, o), List(t, order)], [Insert(p)] + early);
    RunConcat(s, [LookUp(p, o), Begin(t, o), List(t, order)], late + [Commit(t), Insert(p)]);
  }

  lemma ThreeSteps(s: State, a: Action, b: Action, c: Action)
    ensures Run(s, [a, b, c]) == Next(Next(Next(s, a), b), c)
  {
    assert [a, b, c][..2] == [a, b] && [a, b][..1] == [a] && [a][..0] == [];
    assert Run(s, [a]) == Next(s, a);
    assert Run(s, [a, b]) == Next(Next(s, a), b);
  }
}
