/** Deletions and creations at the level of their statements. Every DeleteOrg and DeleteProject is one
    query for its goal and one for the rows below it, a guarded update and an event for one row after the
    other, and a commit; every CreateProject is a query for the org and, at its commit, a row; and the
    statements of any number of them interleave. An updated row stays locked until its transaction commits
    or rolls back; a statement sees what has been committed. */
module CompareAndSet {
  import opened Tenancy

  /** A deletion transaction: its goal is the last row, `found` are the rows its query found to delete
      before that, `done` the rows it has dealt with, of which it has deleted those in `held`. */
  datatype Tx =
    | Idle
    | Querying(n: nat, goal: Resource)
    | Updating(n: nat, goal: Resource, found: set<Resource>, todo: seq<Resource>, held: seq<Resource>,
               done: set<Resource>)
    | Writing(n: nat, goal: Resource, found: set<Resource>, todo: seq<Resource>, held: seq<Resource>,
              done: set<Resource>, row: Resource)
    | Finishing(n: nat, goal: Resource, found: set<Resource>, held: seq<Resource>, done: set<Resource>)

  /** A committed deleted event and the number of the transaction that wrote it. */
  datatype Entry = Entry(row: Resource, tx: nat)

  /** What has become of a transaction. */
  datatype Outcome = Open | Committed | RolledBack

  datatype Deletion = Deletion(goal: Resource, found: set<Resource>, outcome: Outcome)

  /** `rows` says of each committed row whether it is soft-deleted; `log` lists the committed deleted
      events; `parent` gives the org of a project; `pending` are the projects about to be created, with the
      orgs that were found for them. History: `born` are the resources ever created and `deletions` the
      transactions ever begun, numbered in that order. */
  datatype State = State(rows: map<Resource, bool>, log: seq<Entry>, txs: map<nat, Tx>,
                         parent: map<Resource, Resource>, pending: map<Resource, Resource>,
                         born: set<Resource>, deletions: seq<Deletion>)

  datatype Action =
    | CreateOrg(r: Resource)
    | LookUp(r: Resource, org: Resource)     // a creation finds the org of its project
    | Insert(r: Resource)                    // and commits the project's row
    | GiveUp(r: Resource)                    // or rolls back
    | Erase(r: Resource)
    | Begin(t: nat, goal: Resource)
    | List(t: nat, todo: seq<Resource>)
    | Update(t: nat)
    | Write(t: nat)
    | Commit(t: nat)
    | Abort(t: nat)

  function TxOf(s: State, t: nat): Tx { if t in s.txs then s.txs[t] else Idle }

  function Elements(xs: seq<Resource>): set<Resource> { set x | x in xs }

  function Holds(tx: Tx): set<Resource> {
    match tx
    case Idle => {}
    case Querying(_, _) => {}
    case Updating(_, _, _, _, held, _) => Elements(held)
    case Writing(_, _, _, _, held, _, row) => Elements(held) + {row}
    case Finishing(_, _, _, held, _) => Elements(held)
  }

  function Logged(log: seq<Entry>): set<Resource> { set e | e in log :: e.row }

  ghost predicate Locked(s: State, r: Resource) { exists t :: t in s.txs && r in Holds(s.txs[t]) }

  ghost predicate LockedByOther(s: State, t: nat, r: Resource) {
    exists u :: u in s.txs && u != t && r in Holds(s.txs[u])
  }

  predicate Active(s: State, r: Resource) { r in s.rows && !s.rows[r] }

  /** The rows a deletion finds to delete before its goal: the active projects of an org, nothing for a
      project. */
  ghost function Cascade(s: State, goal: Resource): set<Resource> {
    if goal.kind.OrgKind? then set p | p in s.parent && s.parent[p] == goal && Active(s, p) else {}
  }

  function WithTx(s: State, t: nat, tx: Tx): State { s.(txs := s.txs[t := tx]) }

  function Concluded(deletions: seq<Deletion>, tx: Tx, outcome: Outcome): seq<Deletion> {
    if tx.Idle? || tx.n >= |deletions| then deletions
    else deletions[tx.n := deletions[tx.n].(outcome := outcome)]
  }

  function Entries(held: seq<Resource>, n: nat): seq<Entry> {
    seq(|held|, i requires 0 <= i < |held| => Entry(held[i], n))
  }

  function RollBack(s: State, t: nat): State {
    WithTx(s, t, Idle).(deletions := Concluded(s.deletions, TxOf(s, t), RolledBack))
  }

  /** A foreign key keeps a project from being created under an org whose row is gone. */
  predicate Inserts(s: State, r: Resource) { r in s.pending && r !in s.born && s.pending[r] in s.rows }

  /** And it keeps the row of an org as long as a project row refers to it. */
  ghost predicate Referred(s: State, r: Resource) { exists p :: p in s.rows && p in s.parent && s.parent[p] == r }

  function Listed(s: State, t: nat, tx: Tx, todo: seq<Resource>): State
    requires tx.Querying?
  {
    WithTx(s, t, Updating(tx.n, tx.goal, Elements(todo), todo, [], {}))
      .(deletions := if tx.n < |s.deletions| then s.deletions[tx.n := s.deletions[tx.n].(found := Elements(todo))]
                     else s.deletions)
  }

  /** The next guarded update. A row locked by another transaction is waited for; a row that is deleted
      already is passed over, unless it is the goal, which makes the transaction roll back. */
  ghost function UpdateNext(s: State, t: nat, tx: Tx): State
    requires tx.Updating?
  {
    var r := if tx.todo == [] then tx.goal else tx.todo[0];
    if LockedByOther(s, t, r) then s
    else if Active(s, r) && r !in tx.held then
      var rest := if tx.todo == [] then [] else tx.todo[1..];
      WithTx(s, t, Writing(tx.n, tx.goal, tx.found, rest, tx.held, tx.done, r))
    else if tx.todo == [] then RollBack(s, t)
    else WithTx(s, t, Updating(tx.n, tx.goal, tx.found, tx.todo[1..], tx.held, tx.done + {r}))
  }

  ghost function Next(s: State, a: Action): State {
    match a
    case CreateOrg(r) =>
      if r.kind.OrgKind? && r !in s.born then s.(rows := s.rows[r := false], born := s.born + {r}) else s
    case LookUp(r, org) =>
      if r.kind.ProjectKind? && r !in s.born && r !in s.pending && org.kind.OrgKind? && Active(s, org) then
        s.(pending := s.pending[r := org])
      else s
    case Insert(r) =>
      if Inserts(s, r) then
        s.(rows := s.rows[r := false], born := s.born + {r}, parent := s.parent[r := s.pending[r]],
           pending := s.pending - {r})
      else s
    case GiveUp(r) => s.(pending := s.pending - {r})
    case Erase(r) =>
      if r in s.rows && s.rows[r] && !Locked(s, r) && !Referred(s, r) then s.(rows := s.rows - {r}) else s
    case Begin(t, goal) =>
      if TxOf(s, t).Idle? && Active(s, goal) then
        WithTx(s, t, Querying(|s.deletions|, goal)).(deletions := s.deletions + [Deletion(goal, {}, Open)])
      else s
    case List(t, todo) =>
      if TxOf(s, t).Querying? && Lists(todo, Cascade(s, TxOf(s, t).goal)) then Listed(s, t, TxOf(s, t), todo) else s
    case Update(t) =>
      if TxOf(s, t).Updating? then UpdateNext(s, t, TxOf(s, t)) else s
    case Write(t) =>
      match TxOf(s, t) {
        case Writing(n, goal, found, todo, held, done, row) =>
          if row == goal then WithTx(s, t, Finishing(n, goal, found, held + [row], done + {row}))
          else WithTx(s, t, Updating(n, goal, found, todo, held + [row], done + {row}))
        case _ => s
      }
    case Commit(t) =>
      match TxOf(s, t) {
        case Finishing(n, _, _, held, _) =>
          s.(rows := map r | r in s.rows :: s.rows[r] || r in held, log := s.log + Entries(held, n),
             txs := s.txs[t := Idle], deletions := Concluded(s.deletions, TxOf(s, t), Committed))
        case _ => s
      }
    case Abort(t) => RollBack(s, t)
  }

  ghost function Run(s: State, actions: seq<Action>): State {
    if actions == [] then s else Next(Run(s, actions[..|actions| - 1]), actions[|actions| - 1])
  }

  const INIT := State(map[], [], map[], map[], map[], {}, [])

  // --- The invariant of rows, locks and log ---

  ghost predicate NoRepeats(xs: seq<Resource>) { forall i, j :: 0 <= i < j < |xs| ==> xs[i] != xs[j] }

  ghost predicate Distinct(log: seq<Entry>) { forall i, j :: 0 <= i < j < |log| ==> log[i].row != log[j].row }

  /** What a transaction has dealt with it holds or somebody else has deleted; what it holds is still
      active in the committed rows. */
  ghost predicate TxOk(s: State, tx: Tx) {
    && (forall r :: r in Holds(tx) ==> Active(s, r))
    && match tx
       case Idle => true
       case Querying(_, goal) => goal in s.born
       case Updating(_, goal, found, todo, held, done) =>
         HeldOk(s.log, held, done) && {goal} + found <= s.born && goal !in found && found == done + Elements(todo)
       case Writing(_, goal, found, todo, held, done, row) =>
         && HeldOk(s.log, held, done) && row !in held && {goal} + found <= s.born && goal !in found
         && found == if row == goal then done else done + Elements(todo) + {row}
       case Finishing(_, goal, found, held, done) => HeldOk(s.log, held, done) && done == found + {goal} && goal in held
  }

  ghost predicate HeldOk(log: seq<Entry>, held: seq<Resource>, done: set<Resource>) {
    && NoRepeats(held)
    && (forall r :: r in held ==> r in done)
    && forall r :: r in done ==> r in held || r in Logged(log)
  }

  ghost predicate Exclusive(s: State) {
    forall t, u :: t in s.txs && u in s.txs && t != u ==> Holds(s.txs[t]) !! Holds(s.txs[u])
  }

  ghost predicate LogOk(s: State) {
    && Distinct(s.log)
    && Logged(s.log) <= s.born
    && (forall r :: r in s.born ==> (r in Logged(s.log) <==> !Active(s, r)))
    && s.rows.Keys <= s.born
    && (forall p :: p in s.parent ==> p in s.born && p.kind.ProjectKind? && s.parent[p].kind.OrgKind?)
    && (forall p :: p in s.pending ==> p.kind.ProjectKind? && s.pending[p].kind.OrgKind?)
  }

  ghost predicate Inv(s: State) {
    LogOk(s) && Exclusive(s) && forall t :: t in s.txs ==> TxOk(s, s.txs[t])
  }

  // --- Every step keeps it ---

  lemma TxIsStable(s: State, s': State, tx: Tx)
    requires TxOk(s, tx) && s.born <= s'.born && Logged(s.log) <= Logged(s'.log)
    requires forall r :: r in Holds(tx) ==> Active(s', r)
    ensures TxOk(s', tx)
  {
  }

  lemma RowsKeepLog(s: State, a: Action)
    requires LogOk(s) && (a.CreateOrg? || a.LookUp? || a.Insert? || a.GiveUp? || a.Erase?)
    ensures LogOk(Next(s, a))
  {
  }

  lemma RowsKeepTxs(s: State, a: Action, tx: Tx)
    requires TxOk(s, tx) && (a.CreateOrg? || a.LookUp? || a.Insert? || a.GiveUp? || a.Erase?)
    requires s.rows.Keys <= s.born && forall r :: r in Holds(tx) ==> Locked(s, r)
    ensures TxOk(Next(s, a), tx)
  {
    TxIsStable(s, Next(s, a), tx);
  }

  lemma RowsStep(s: State, a: Action)
    requires Inv(s) && (a.CreateOrg? || a.LookUp? || a.Insert? || a.GiveUp? || a.Erase?)
    ensures Inv(Next(s, a))
  {
    RowsKeepLog(s, a);
    forall t | t in s.txs ensures TxOk(Next(s, a), s.txs[t]) {
      assert forall r :: r in Holds(s.txs[t]) ==> Locked(s, r);
      RowsKeepTxs(s, a, s.txs[t]);
    }
  }

  /** One transaction moves on without touching rows or log. */
  lemma OwnStep(s: State, t: nat, tx: Tx, deletions: seq<Deletion>)
    requires Inv(s) && TxOk(s, tx)
    requires forall u :: u in s.txs && u != t ==> Holds(s.txs[u]) !! Holds(tx)
    ensures Inv(WithTx(s, t, tx).(deletions := deletions))
  {
    var s' := WithTx(s, t, tx).(deletions := deletions);
    forall u | u in s'.txs ensures TxOk(s', s'.txs[u]) {
      TxIsStable(s, s', s'.txs[u]);
    }
  }

  lemma UpdateStep(s: State, t: nat)
    requires Inv(s) && TxOf(s, t).Updating?
    ensures Inv(UpdateNext(s, t, TxOf(s, t)))
  {
    var tx := TxOf(s, t);
    var r := if tx.todo == [] then tx.goal else tx.todo[0];
    if !LockedByOther(s, t, r) {
      assert tx.todo != [] ==> Elements(tx.todo) == {r} + Elements(tx.todo[1..]);
      assert tx.todo == [] ==> Elements(tx.todo) == {};
      if Active(s, r) && r !in tx.held {
        var rest := if tx.todo == [] then [] else tx.todo[1..];
        OwnStep(s, t, Writing(tx.n, tx.goal, tx.found, rest, tx.held, tx.done, r), s.deletions);
      } else if tx.todo == [] {
        OwnStep(s, t, Idle, Concluded(s.deletions, tx, RolledBack));
      } else {
        OwnStep(s, t, Updating(tx.n, tx.goal, tx.found, tx.todo[1..], tx.held, tx.done + {r}), s.deletions);
      }
    }
  }

  lemma WriteStep(s: State, t: nat)
    requires Inv(s) && TxOf(s, t).Writing?
    ensures Inv(Next(s, Write(t)))
  {
    var tx := TxOf(s, t);
    var held, done := tx.held + [tx.row], tx.done + {tx.row};
    assert Elements(held) == Elements(tx.held) + {tx.row};
    assert HeldOk(s.log, held, done);
    if tx.row == tx.goal {
      OwnStep(s, t, Finishing(tx.n, tx.goal, tx.found, held, done), s.deletions);
    } else {
      OwnStep(s, t, Updating(tx.n, tx.goal, tx.found, tx.todo, held, done), s.deletions);
    }
  }

  lemma EntriesAre(held: seq<Resource>, n: nat)
    ensures Logged(Entries(held, n)) == Elements(held)
    ensures forall e :: e in Entries(held, n) <==> e.row in held && e.tx == n
  {
    forall r | r in held ensures Entry(r, n) in Entries(held, n) {
      var i :| 0 <= i < |held| && held[i] == r;
      assert Entries(held, n)[i] == Entry(r, n);
    }
    forall r | r in Elements(held) ensures r in Logged(Entries(held, n)) { assert Entry(r, n).row == r; }
  }

  lemma LoggedConcat(a: seq<Entry>, b: seq<Entry>)
    ensures Logged(a + b) == Logged(a) + Logged(b)
  {
  }

  lemma CommitLog(log: seq<Entry>, held: seq<Resource>, n: nat)
    requires Distinct(log) && NoRepeats(held) && forall r :: r in held ==> r !in Logged(log)
    ensures Distinct(log + Entries(held, n))
    ensures Logged(log + Entries(held, n)) == Logged(log) + Elements(held)
  {
    var all := log + Entries(held, n);
    forall i, j | 0 <= i < j < |all| ensures all[i].row != all[j].row {
      if i < |log| <= j { assert log[i] in log && held[j - |log|] in held; }
    }
    EntriesAre(held, n);
    LoggedConcat(log, Entries(held, n));
  }

  /** What another transaction holds is still active after a commit. */
  lemma CommitKeepsTx(s: State, t: nat, tx: Tx)
    requires TxOf(s, t).Finishing? && TxOk(s, tx) && Holds(tx) !! Holds(TxOf(s, t))
    ensures TxOk(Next(s, Commit(t)), tx)
  {
    LoggedConcat(s.log, Entries(TxOf(s, t).held, TxOf(s, t).n));
    assert forall r :: r in TxOf(s, t).held ==> r in Holds(TxOf(s, t));
    TxIsStable(s, Next(s, Commit(t)), tx);
  }

  lemma CommitKeepsLog(s: State, t: nat)
    requires LogOk(s) && TxOf(s, t).Finishing? && TxOk(s, TxOf(s, t))
    ensures LogOk(Next(s, Commit(t)))
  {
    assert forall r :: r in TxOf(s, t).held <==> r in Holds(TxOf(s, t));
    CommitLog(s.log, TxOf(s, t).held, TxOf(s, t).n);
  }

  lemma CommitStep(s: State, t: nat)
    requires Inv(s) && TxOf(s, t).Finishing?
    ensures Inv(Next(s, Commit(t)))
  {
    var s' := Next(s, Commit(t));
    CommitKeepsLog(s, t);
    forall u | u in s'.txs ensures TxOk(s', s'.txs[u]) {
      if u != t { CommitKeepsTx(s, t, s.txs[u]); }
    }
  }

  lemma BeginStep(s: State, t: nat, goal: Resource)
    requires Inv(s)
    ensures Inv(Next(s, Begin(t, goal)))
  {
    if TxOf(s, t).Idle? && Active(s, goal) {
      OwnStep(s, t, Querying(|s.deletions|, goal), s.deletions + [Deletion(goal, {}, Open)]);
    }
  }

  lemma ListStep(s: State, t: nat, todo: seq<Resource>)
    requires Inv(s)
    ensures Inv(Next(s, List(t, todo)))
  {
    var tx := TxOf(s, t);
    if tx.Querying? && Lists(todo, Cascade(s, tx.goal)) {
      assert Elements(todo) <= s.born && TxOk(s, tx);
      OwnStep(s, t, Updating(tx.n, tx.goal, Elements(todo), todo, [], {}), Listed(s, t, tx, todo).deletions);
    }
  }

  lemma StepKeepsInv(s: State, a: Action)
    requires Inv(s)
    ensures Inv(Next(s, a))
  {
    match a
    case CreateOrg(_) => RowsStep(s, a);
    case LookUp(_, _) => RowsStep(s, a);
    case Insert(_) => RowsStep(s, a);
    case GiveUp(_) => RowsStep(s, a);
    case Erase(_) => RowsStep(s, a);
    case Begin(t, goal) => BeginStep(s, t, goal);
    case List(t, todo) => ListStep(s, t, todo);
    case Update(t) => if TxOf(s, t).Updating? { UpdateStep(s, t); }
    case Write(t) => if TxOf(s, t).Writing? { WriteStep(s, t); }
    case Commit(t) => if TxOf(s, t).Finishing? { CommitStep(s, t); }
    case Abort(t) => OwnStep(s, t, Idle, Concluded(s.deletions, TxOf(s, t), RolledBack));
  }

  lemma {:induction false} RunKeepsInv(actions: seq<Action>)
    ensures Inv(Run(INIT, actions))
    decreases |actions|
  {
    if actions != [] {
      RunKeepsInv(actions[..|actions| - 1]);
      StepKeepsInv(Run(INIT, actions[..|actions| - 1]), actions[|actions| - 1]);
    }
  }

  // --- At most one deletion ---

  ghost predicate Once(log: seq<Entry>, r: Resource) {
    exists i :: 0 <= i < |log| && log[i].row == r && forall j :: 0 <= j < |log| && log[j].row == r ==> j == i
  }

  lemma LoggedIsOnce(log: seq<Entry>, r: Resource)
    requires Distinct(log) && r in Logged(log)
    ensures Once(log, r)
  {
    var e :| e in log && e.row == r;
    var i :| 0 <= i < |log| && log[i] == e;
    assert forall j :: 0 <= j < |log| && log[j].row == r ==> j == i;
  }

  /** However the statements of deletions interleave: no resource ever has two deleted events, and of the
      resources ever created exactly those that are no longer active have one. */
  lemma AtMostOneDeletion(actions: seq<Action>, r: Resource)
    ensures var s := Run(INIT, actions);
            && (r in Logged(s.log) ==> Once(s.log, r) && r in s.born)
            && (r in s.born ==> (r in Logged(s.log) <==> !Active(s, r)))
  {
    RunKeepsInv(actions);
    var log := Run(INIT, actions).log;
    if r in Logged(log) { LoggedIsOnce(log, r); }
  }

  // --- All of a deletion or nothing ---

  function FoundBy(tx: Tx): set<Resource>
    requires !tx.Idle?
  {
    if tx.Querying? then {} else tx.found
  }

  /** A transaction under way is the one its number stands for, and it is open. */
  ghost predicate Registered(deletions: seq<Deletion>, tx: Tx) {
    !tx.Idle? ==> tx.n < |deletions| && deletions[tx.n] == Deletion(tx.goal, FoundBy(tx), Open)
  }

  ghost predicate OwnNumbers(txs: map<nat, Tx>) {
    forall t, u :: t in txs && u in txs && t != u && !txs[t].Idle? && !txs[u].Idle? ==> txs[t].n != txs[u].n
  }

  /** A committed transaction has written the event of its goal, and all it found is logged. */
  ghost predicate Whole(log: seq<Entry>, deletions: seq<Deletion>, n: nat)
    requires n < |deletions|
  {
    deletions[n].outcome.Committed? ==> Entry(deletions[n].goal, n) in log && deletions[n].found <= Logged(log)
  }

  /** An event was written by a committed transaction, for its goal or for what it found. */
  ghost predicate Signed(deletions: seq<Deletion>, e: Entry) {
    && e.tx < |deletions| && deletions[e.tx].outcome.Committed?
    && (e.row == deletions[e.tx].goal || e.row in deletions[e.tx].found)
  }

  /** What a deletion finds before its goal are projects of the goal. */
  ghost predicate ProperlyFound(s: State, d: Deletion) {
    forall r :: r in d.found ==> d.goal.kind.OrgKind? && r in s.parent && s.parent[r] == d.goal
  }

  ghost predicate Books(s: State) {
    && (forall t :: t in s.txs ==> Registered(s.deletions, s.txs[t]))
    && OwnNumbers(s.txs)
    && (forall n :: 0 <= n < |s.deletions| ==> Whole(s.log, s.deletions, n) && ProperlyFound(s, s.deletions[n]))
    && (forall e :: e in s.log ==> Signed(s.deletions, e))
  }

  lemma ConcludeKeepsBooks(s: State, t: nat)
    requires Books(s)
    ensures Books(RollBack(s, t))
  {
    var s', tx := RollBack(s, t), TxOf(s, t);
    if !tx.Idle? {
      assert Registered(s.deletions, tx);
      forall u | u in s'.txs ensures Registered(s'.deletions, s'.txs[u]) {
        assert u != t ==> Registered(s.deletions, s.txs[u]);
      }
      forall n | 0 <= n < |s'.deletions| ensures Whole(s'.log, s'.deletions, n) && ProperlyFound(s', s'.deletions[n]) {
        assert Whole(s.log, s.deletions, n) && ProperlyFound(s, s.deletions[n]);
      }
      forall e | e in s'.log ensures Signed(s'.deletions, e) { assert Signed(s.deletions, e); }
    }
  }

  /** A transaction moves on under its number. */
  lemma MoveKeepsBooks(s: State, t: nat, tx: Tx)
    requires Books(s) && !TxOf(s, t).Idle? && !tx.Idle?
    requires tx.n == TxOf(s, t).n && tx.goal == TxOf(s, t).goal && FoundBy(tx) == FoundBy(TxOf(s, t))
    ensures Books(WithTx(s, t, tx))
  {
    var s' := WithTx(s, t, tx);
    forall n | 0 <= n < |s'.deletions| ensures ProperlyFound(s', s'.deletions[n]) {
      assert ProperlyFound(s, s.deletions[n]);
    }
  }

  lemma BeginKeepsBooks(s: State, t: nat, goal: Resource)
    requires Books(s)
    ensures Books(Next(s, Begin(t, goal)))
  {
    var s' := Next(s, Begin(t, goal));
    if s' != s {
      forall u | u in s'.txs ensures Registered(s'.deletions, s'.txs[u]) {
        assert u != t ==> Registered(s.deletions, s.txs[u]);
      }
      forall n | 0 <= n < |s'.deletions| ensures Whole(s'.log, s'.deletions, n) && ProperlyFound(s', s'.deletions[n]) {
        assert n < |s.deletions| ==> Whole(s.log, s.deletions, n) && ProperlyFound(s, s.deletions[n]);
      }
      forall e | e in s'.log ensures Signed(s'.deletions, e) { assert Signed(s.deletions, e); }
    }
  }

  lemma ListKeepsBooks(s: State, t: nat, todo: seq<Resource>)
    requires Books(s)
    ensures Books(Next(s, List(t, todo)))
  {
    var s', tx := Next(s, List(t, todo)), TxOf(s, t);
    if s' != s {
      assert Registered(s.deletions, tx);
      forall u | u in s'.txs ensures Registered(s'.deletions, s'.txs[u]) {
        assert u != t ==> Registered(s.deletions, s.txs[u]);
      }
      forall n | 0 <= n < |s'.deletions| ensures Whole(s'.log, s'.deletions, n) && ProperlyFound(s', s'.deletions[n]) {
        assert Whole(s.log, s.deletions, n) && ProperlyFound(s, s.deletions[n]);
        if n == tx.n { assert forall r :: r in Elements(todo) ==> r in Cascade(s, tx.goal); }
      }
      forall e | e in s'.log ensures Signed(s'.deletions, e) { assert Signed(s.deletions, e); }
    }
  }

  /** The numbers of the others stay open when one transaction is concluded. */
  lemma ConcludeKeepsRegistered(s: State, t: nat, outcome: Outcome)
    requires (forall u :: u in s.txs ==> Registered(s.deletions, s.txs[u])) && OwnNumbers(s.txs)
    ensures var txs, deletions := s.txs[t := Idle], Concluded(s.deletions, TxOf(s, t), outcome);
            (forall u :: u in txs ==> Registered(deletions, txs[u])) && OwnNumbers(txs)
  {
    forall u | u in s.txs && u != t ensures Registered(Concluded(s.deletions, TxOf(s, t), outcome), s.txs[u]) {
      assert Registered(s.deletions, s.txs[u]);
    }
  }

  /** A finished transaction's events account for its goal and for all it found, and for nothing else. */
  lemma CommitIsSigned(log: seq<Entry>, deletions: seq<Deletion>, tx: Tx)
    requires tx.Finishing? && HeldOk(log, tx.held, tx.done) && tx.done == tx.found + {tx.goal} && tx.goal in tx.held
    requires tx.n < |deletions| && deletions[tx.n].goal == tx.goal && deletions[tx.n].found == tx.found
    ensures var deletions', log' := Concluded(deletions, tx, Committed), log + Entries(tx.held, tx.n);
            && Whole(log', deletions', tx.n)
            && (forall n :: 0 <= n < |deletions| && n != tx.n && Whole(log, deletions, n) ==>
                Whole(log', deletions', n))
            && (forall e :: e in log' && (e in log ==> Signed(deletions, e)) ==> Signed(deletions', e))
  {
    EntriesAre(tx.held, tx.n);
    LoggedConcat(log, Entries(tx.held, tx.n));
    assert Entry(tx.goal, tx.n) in Entries(tx.held, tx.n);
  }

  lemma CommitKeepsBooks(s: State, t: nat)
    requires Inv(s) && Books(s) && TxOf(s, t).Finishing?
    ensures Books(Next(s, Commit(t)))
  {
    var s', tx := Next(s, Commit(t)), TxOf(s, t);
    assert Registered(s.deletions, tx) && TxOk(s, tx);
    ConcludeKeepsRegistered(s, t, Committed);
    CommitIsSigned(s.log, s.deletions, tx);
    forall n | 0 <= n < |s'.deletions| ensures ProperlyFound(s', s'.deletions[n]) {
      assert ProperlyFound(s, s.deletions[n]);
    }
  }

  lemma RowsKeepBooks(s: State, a: Action)
    requires LogOk(s) && Books(s) && (a.CreateOrg? || a.LookUp? || a.Insert? || a.GiveUp? || a.Erase?)
    ensures Books(Next(s, a))
  {
    var s' := Next(s, a);
    forall n | 0 <= n < |s'.deletions| ensures ProperlyFound(s', s'.deletions[n]) {
      assert ProperlyFound(s, s.deletions[n]);
    }
  }

  lemma UpdateKeepsBooks(s: State, t: nat)
    requires Books(s) && TxOf(s, t).Updating?
    ensures Books(UpdateNext(s, t, TxOf(s, t)))
  {
    var tx := TxOf(s, t);
    var r := if tx.todo == [] then tx.goal else tx.todo[0];
    if !LockedByOther(s, t, r) {
      if Active(s, r) && r !in tx.held {
        var rest := if tx.todo == [] then [] else tx.todo[1..];
        MoveKeepsBooks(s, t, Writing(tx.n, tx.goal, tx.found, rest, tx.held, tx.done, r));
      } else if tx.todo == [] {
        ConcludeKeepsBooks(s, t);
      } else {
        MoveKeepsBooks(s, t, Updating(tx.n, tx.goal, tx.found, tx.todo[1..], tx.held, tx.done + {r}));
      }
    }
  }

  lemma WriteKeepsBooks(s: State, t: nat)
    requires Books(s) && TxOf(s, t).Writing?
    ensures Books(Next(s, Write(t)))
  {
    var tx := TxOf(s, t);
    if tx.row == tx.goal {
      MoveKeepsBooks(s, t, Finishing(tx.n, tx.goal, tx.found, tx.held + [tx.row], tx.done + {tx.row}));
    } else {
      MoveKeepsBooks(s, t, Updating(tx.n, tx.goal, tx.found, tx.todo, tx.held + [tx.row], tx.done + {tx.row}));
    }
  }

  lemma StepKeepsBooks(s: State, a: Action)
    requires Inv(s) && Books(s)
    ensures Books(Next(s, a))
  {
    match a
    case CreateOrg(_) => RowsKeepBooks(s, a);
    case LookUp(_, _) => RowsKeepBooks(s, a);
    case Insert(_) => RowsKeepBooks(s, a);
    case GiveUp(_) => RowsKeepBooks(s, a);
    case Erase(_) => RowsKeepBooks(s, a);
    case Begin(t, goal) => BeginKeepsBooks(s, t, goal);
    case List(t, todo) => ListKeepsBooks(s, t, todo);
    case Update(t) => if TxOf(s, t).Updating? { UpdateKeepsBooks(s, t); }
    case Write(t) => if TxOf(s, t).Writing? { WriteKeepsBooks(s, t); }
    case Commit(t) => if TxOf(s, t).Finishing? { CommitKeepsBooks(s, t); }
    case Abort(t) => ConcludeKeepsBooks(s, t);
  }

  lemma {:induction false} RunKeepsBooks(actions: seq<Action>)
    ensures Inv(Run(INIT, actions)) && Books(Run(INIT, actions))
    decreases |actions|
  {
    if actions != [] {
      RunKeepsBooks(actions[..|actions| - 1]);
      StepKeepsInv(Run(INIT, actions[..|actions| - 1]), actions[|actions| - 1]);
      StepKeepsBooks(Run(INIT, actions[..|actions| - 1]), actions[|actions| - 1]);
    }
  }

  /** Only commits show, and they show all: in every run each deleted row that was ever created has an event
      written by a committed transaction together with the event of that transaction's goal; and where it
      is not the goal itself it is a project of the goal. */
  lemma OnlyCommitsShow(actions: seq<Action>, r: Resource)
    ensures var s := Run(INIT, actions);
            r in s.born && !Active(s, r) ==>
              exists n :: 0 <= n < |s.deletions| && s.deletions[n].outcome.Committed?
                && Entry(r, n) in s.log && Entry(s.deletions[n].goal, n) in s.log
                && (r == s.deletions[n].goal || (r in s.parent && s.parent[r] == s.deletions[n].goal))
  {
    RunKeepsBooks(actions);
    var s := Run(INIT, actions);
    if r in s.born && !Active(s, r) {
      var e :| e in s.log && e.row == r;
      assert Signed(s.deletions, e);
      assert Whole(s.log, s.deletions, e.tx) && ProperlyFound(s, s.deletions[e.tx]);
      assert e == Entry(r, e.tx);
    }
  }

  /** In every run: a transaction that has rolled back, because it lost its goal to another one or for any
      other reason, and one that is still open, has left no event and no lock beyond what it holds while
      open; and one that has committed has left everything it found with exactly one event. */
  lemma LoserLeavesNothing(actions: seq<Action>, n: nat)
    requires n < |Run(INIT, actions).deletions|
    ensures var s := Run(INIT, actions);
            var d := s.deletions[n];
            && (d.outcome.Committed? <==> exists e :: e in s.log && e.tx == n)
            && (d.outcome.Committed? ==> forall r :: r == d.goal || r in d.found ==> Once(s.log, r))
            && (!d.outcome.Open? ==> forall t :: t in s.txs && !s.txs[t].Idle? ==> s.txs[t].n != n)
  {
    RunKeepsBooks(actions);
    var s := Run(INIT, actions);
    var d := s.deletions[n];
    assert Whole(s.log, s.deletions, n);
    forall e | e in s.log && e.tx == n ensures d.outcome.Committed? { assert Signed(s.deletions, e); }
    if d.outcome.Committed? {
      assert Entry(d.goal, n) in s.log;
      forall r | r == d.goal || r in d.found ensures Once(s.log, r) {
        assert Entry(d.goal, n).row in Logged(s.log);
        LoggedIsOnce(s.log, r);
      }
    }
    forall t | t in s.txs && !s.txs[t].Idle? && !d.outcome.Open? ensures s.txs[t].n != n {
      assert Registered(s.deletions, s.txs[t]);
    }
  }

  /** A deletion that commits has seen to all the rows it found: each has exactly one deleted event, its
      own or somebody else's. */
  lemma WinnerDeletesAll(s: State, t: nat, r: Resource)
    requires Inv(s) && TxOf(s, t).Finishing? && r in TxOf(s, t).found
    ensures var s' := Next(s, Commit(t));
            Once(s'.log, r) && Once(s'.log, TxOf(s, t).goal) && !Active(s', r) && !Active(s', TxOf(s, t).goal)
  {
    var s', tx := Next(s, Commit(t)), TxOf(s, t);
    StepKeepsInv(s, Commit(t));
    assert TxOk(s, tx);
    EntriesAre(tx.held, tx.n);
    LoggedConcat(s.log, Entries(tx.held, tx.n));
    LoggedIsOnce(s'.log, r);
    LoggedIsOnce(s'.log, tx.goal);
  }
}
