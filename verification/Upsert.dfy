/** UpsertControllerStatus under concurrency: each call is up to three statements, an update, a creation
    and a second update, and the statements of any number of calls interleave with each other and with
    deletions of status rows. */
module Upserts {
  import opened Tenancy

  datatype Pc = FirstUpdate | Creation | Retry | Succeeded | Refused

  datatype Call = Call(key: StatusKey, row: StatusRow, pc: Pc)

  /** The atomic operations on the table that the statements amount to. */
  datatype Op = Put(call: nat, key: StatusKey, row: StatusRow) | Remove(key: StatusKey)

  /** `ops` is a history variable: it records an operation when the statement that has its effect is
      executed. */
  datatype State = State(table: map<StatusKey, StatusRow>, calls: seq<Call>, ops: seq<Op>)

  datatype Action =
    | Start(key: StatusKey, row: StatusRow)
    | Statement(call: nat, down: bool)      // the next statement of a call; `down` makes it fail
    | Delete(key: StatusKey)                // a row is withdrawn or cleaned up

  function Move(s: State, i: nat, pc: Pc): State
    requires i < |s.calls|
  {
    s.(calls := s.calls[i := s.calls[i].(pc := pc)])
  }

  function Write(s: State, i: nat): State
    requires i < |s.calls|
  {
    var c := s.calls[i];
    Move(s, i, Succeeded).(table := s.table[c.key := c.row], ops := s.ops + [Put(i, c.key, c.row)])
  }

  /** An update counts the rows it has changed; a creation fails where the unique index already has the
      key. Any failure of the creation leads to the second update. */
  function Execute(s: State, i: nat, down: bool): State
    requires i < |s.calls|
  {
    var present := s.calls[i].key in s.table;
    match s.calls[i].pc
    case FirstUpdate => if down then Move(s, i, Refused) else if present then Write(s, i) else Move(s, i, Creation)
    case Creation => if down || present then Move(s, i, Retry) else Write(s, i)
    case Retry => if !down && present then Write(s, i) else Move(s, i, Refused)
    case _ => s
  }

  function Next(s: State, a: Action): State {
    match a
    case Start(key, row) => s.(calls := s.calls + [Call(key, row, FirstUpdate)])
    case Statement(i, down) => if i < |s.calls| then Execute(s, i, down) else s
    case Delete(key) => s.(table := s.table - {key}, ops := s.ops + [Remove(key)])
  }

  function Run(s: State, actions: seq<Action>): State {
    if actions == [] then s else Next(Run(s, actions[..|actions| - 1]), actions[|actions| - 1])
  }

  const INIT := State(map[], [], [])

  // --- The atomic table ---

  function Apply(t: map<StatusKey, StatusRow>, op: Op): map<StatusKey, StatusRow> {
    match op
    case Put(_, key, row) => t[key := row]
    case Remove(key) => t - {key}
  }

  function Replay(ops: seq<Op>): map<StatusKey, StatusRow> {
    if ops == [] then map[] else Apply(Replay(ops[..|ops| - 1]), ops[|ops| - 1])
  }

  predicate IsPutOf(op: Op, i: nat) { op.Put? && op.call == i }

  function PutsOf(ops: seq<Op>, i: nat): seq<Op> {
    if ops == [] then []
    else PutsOf(ops[..|ops| - 1], i) + if IsPutOf(ops[|ops| - 1], i) then [ops[|ops| - 1]] else []
  }

  lemma ReplayAppend(ops: seq<Op>, op: Op, i: nat)
    ensures Replay(ops + [op]) == Apply(Replay(ops), op)
    ensures PutsOf(ops + [op], i) == PutsOf(ops, i) + if IsPutOf(op, i) then [op] else []
  {
    assert (ops + [op])[..|ops|] == ops;
  }

  /** A call that succeeded has put its values exactly once, any other call has put nothing. */
  ghost predicate CallOk(s: State, i: nat) {
    PutsOf(s.ops, i) == if i < |s.calls| && s.calls[i].pc.Succeeded? then [Put(i, s.calls[i].key, s.calls[i].row)]
        else []
  }

  ghost predicate Inv(s: State) {
    s.table == Replay(s.ops) && forall i :: CallOk(s, i)
  }

  lemma WriteKeepsInv(s: State, i: nat)
    requires Inv(s) && i < |s.calls| && !s.calls[i].pc.Succeeded?
    ensures Inv(Write(s, i))
  {
    var c := s.calls[i];
    forall j ensures CallOk(Write(s, i), j) {
      ReplayAppend(s.ops, Put(i, c.key, c.row), j);
      assert CallOk(s, j);
    }
  }

  lemma MoveKeepsInv(s: State, i: nat, pc: Pc)
    requires Inv(s) && i < |s.calls| && !s.calls[i].pc.Succeeded? && !pc.Succeeded?
    ensures Inv(Move(s, i, pc))
  {
    forall j ensures CallOk(Move(s, i, pc), j) { assert CallOk(s, j); }
  }

  lemma ExecuteKeepsInv(s: State, i: nat, down: bool)
    requires Inv(s) && i < |s.calls|
    ensures Inv(Execute(s, i, down))
  {
    if !s.calls[i].pc.Succeeded? {
      WriteKeepsInv(s, i);
      MoveKeepsInv(s, i, Creation);
      MoveKeepsInv(s, i, Retry);
      MoveKeepsInv(s, i, Refused);
    }
  }

  lemma StepKeepsInv(s: State, a: Action)
    requires Inv(s)
    ensures Inv(Next(s, a))
  {
    match a
    case Start(key, row) =>
      forall j ensures CallOk(Next(s, a), j) { assert CallOk(s, j); }
    case Statement(i, down) => if i < |s.calls| { ExecuteKeepsInv(s, i, down); }
    case Delete(key) =>
      forall j ensures CallOk(Next(s, a), j) {
        ReplayAppend(s.ops, Remove(key), j);
        assert CallOk(s, j);
      }
  }

  /** Upserts linearize: whatever the interleaving, the table is what a sequence of atomic puts and
      removals makes of the empty one, in which every call that reported success has put its values
      exactly once and every other call nothing. */
  lemma {:induction false} Linearizes(actions: seq<Action>)
    ensures var s := Run(INIT, actions); s.table == Replay(s.ops) && forall i :: CallOk(s, i)
    decreases |actions|
  {
    if actions != [] {
      Linearizes(actions[..|actions| - 1]);
      StepKeepsInv(Run(INIT, actions[..|actions| - 1]), actions[|actions| - 1]);
    }
  }

  // --- Real time ---

  lemma {:induction false} OpsOnlyGrow(s: State, actions: seq<Action>)
    ensures s.ops <= Run(s, actions).ops
    decreases |actions|
  {
    if actions != [] { OpsOnlyGrow(s, actions[..|actions| - 1]); }
  }

  lemma {:induction false} RunConcat(s: State, a: seq<Action>, b: seq<Action>)
    ensures Run(s, a + b) == Run(Run(s, a), b)
    decreases |b|
  {
    if b == [] {
      assert a + b == a;
    } else {
      RunConcat(s, a, b[..|b| - 1]);
      assert (a + b)[..|a + b| - 1] == a + b[..|b| - 1];
    }
  }

  lemma {:induction false} PutIsListed(ops: seq<Op>, i: nat, k: nat)
    requires k < |ops| && IsPutOf(ops[k], i)
    ensures PutsOf(ops, i) != []
    decreases |ops|
  {
    if k < |ops| - 1 { PutIsListed(ops[..|ops| - 1], i, k); }
  }

  /** The order of the atomic operations respects real time: what a call put, or anybody removed, before
      another call began comes before whatever that call puts. */
  lemma RespectsRealTime(before: seq<Action>, after: seq<Action>, j: nat, k: nat)
    requires |Run(INIT, before).calls| <= j
    requires k < |Run(INIT, before + after).ops| && IsPutOf(Run(INIT, before + after).ops[k], j)
    ensures Run(INIT, before).ops <= Run(INIT, before + after).ops
    ensures |Run(INIT, before).ops| <= k
  {
    var s := Run(INIT, before);
    RunConcat(INIT, before, after);
    OpsOnlyGrow(s, after);
    Linearizes(before);
    assert CallOk(s, j);
    if k < |s.ops| { PutIsListed(s.ops, j, k); }
  }

  // --- What becomes of a call ---

  /** What one of a call's statements meets: it fails, or it finds a row of the call's key, or none. */
  datatype Meeting = Failure | Hit | Miss

  function Meets(s: State, i: nat, down: bool): Meeting
    requires i < |s.calls|
  {
    if down then Failure else if s.calls[i].key in s.table then Hit else Miss
  }

  /** What the statements of a call have met in a run, in order. */
  function Meetings(actions: seq<Action>, i: nat): seq<Meeting> {
    if actions == [] then []
    else
      var n := |actions| - 1;
      var s := Run(INIT, actions[..n]);
      Meetings(actions[..n], i)
      + match actions[n] {
          case Statement(j, down) => if j == i && i < |s.calls| then [Meets(s, i, down)] else []
          case _ => []
        }
  }

  /** A call has succeeded exactly if its update found the row; or found none, and its creation found none
      either; or its creation failed or found a row, and its second update found one. */
  predicate Wins(met: seq<Meeting>) {
    && |met| >= 1
    && (|| met[0] == Hit
        || (|met| >= 2 && met[0] == Miss && met[1] == Miss)
        || (|met| >= 3 && met[0] == Miss && met[1] != Miss && met[2] == Hit))
  }

  /** And it has been refused exactly if its update failed, or found no row, and after a creation that
      failed or found one its second update failed or found none. */
  predicate Loses(met: seq<Meeting>) {
    && |met| >= 1
    && (met[0] == Failure || (|met| >= 3 && met[0] == Miss && met[1] != Miss && met[2] != Hit))
  }

  ghost predicate StandsAt(pc: Pc, met: seq<Meeting>) {
    && (pc.Succeeded? <==> Wins(met)) && (pc.Refused? <==> Loses(met))
    && (pc.FirstUpdate? <==> |met| == 0)
    && (pc.Creation? <==> |met| == 1 && met[0] == Miss)
    && (pc.Retry? <==> |met| == 2 && met[0] == Miss && met[1] != Miss)
  }

  lemma CallsOnlyGrow(s: State, a: Action)
    ensures |s.calls| <= |Next(s, a).calls|
    ensures forall i :: 0 <= i < |s.calls| ==>
                Next(s, a).calls[i].key == s.calls[i].key && Next(s, a).calls[i].row == s.calls[i].row
  {
  }

  lemma {:induction false} NothingMetBefore(actions: seq<Action>, i: nat)
    requires i >= |Run(INIT, actions).calls|
    ensures Meetings(actions, i) == []
    decreases |actions|
  {
    if actions != [] {
      var n := |actions| - 1;
      CallsOnlyGrow(Run(INIT, actions[..n]), actions[n]);
      NothingMetBefore(actions[..n], i);
    }
  }

  lemma StatementStands(s: State, i: nat, down: bool, met: seq<Meeting>)
    requires i < |s.calls| && StandsAt(s.calls[i].pc, met)
    ensures StandsAt(Execute(s, i, down).calls[i].pc, met + [Meets(s, i, down)])
  {
  }

  /** In every run: whether a call succeeds or is refused, and how far it has come, is decided by what its
      first three statements have met, in exactly this way. */
  lemma {:induction false} OutcomeExactly(actions: seq<Action>, i: nat)
    requires i < |Run(INIT, actions).calls|
    ensures StandsAt(Run(INIT, actions).calls[i].pc, Meetings(actions, i))
    decreases |actions|
  {
    var n := |actions| - 1;
    var s, a := Run(INIT, actions[..n]), actions[n];
    if i < |s.calls| {
      OutcomeExactly(actions[..n], i);
      if a.Statement? && a.call == i { StatementStands(s, i, a.down, Meetings(actions[..n], i)); }
    } else {
      NothingMetBefore(actions[..n], i);
    }
  }

  // --- Why a call is refused ---

  function At(actions: seq<Action>, j: nat): State
    requires j <= |actions|
  {
    Run(INIT, actions[..j])
  }

  /** The j-th action fails a statement of a call under way. */
  ghost predicate Fails(actions: seq<Action>, i: nat, j: nat) {
    && j < |actions| && actions[j] == Statement(i, true)
    && i < |At(actions, j).calls| && At(actions, j).calls[i].pc !in {Succeeded, Refused}
  }

  /** The j-th action deletes the row of a call between its creation and its second update. */
  ghost predicate Robs(actions: seq<Action>, i: nat, j: nat) {
    && j < |actions| && i < |At(actions, j).calls| && At(actions, j).calls[i].pc.Retry?
    && actions[j] == Delete(At(actions, j).calls[i].key)
  }

  ghost predicate Unhindered(actions: seq<Action>, i: nat) {
    forall j :: 0 <= j < |actions| ==> !Fails(actions, i, j) && !Robs(actions, i, j)
  }

  lemma UnhinderedPrefix(actions: seq<Action>, i: nat)
    requires actions != [] && Unhindered(actions, i)
    ensures Unhindered(actions[..|actions| - 1], i)
  {
    var n := |actions| - 1;
    forall j | 0 <= j < n ensures !Fails(actions[..n], i, j) && !Robs(actions[..n], i, j) {
      assert actions[..n][..j] == actions[..j];
      assert !Fails(actions, i, j) && !Robs(actions, i, j);
    }
  }

  /** A call under way is not refused, and finds a row when it comes to its second update. */
  ghost predicate Hopeful(s: State, i: nat) {
    i < |s.calls| ==> !s.calls[i].pc.Refused? && (s.calls[i].pc.Retry? ==> s.calls[i].key in s.table)
  }

  lemma StaysHopeful(s: State, a: Action, i: nat)
    requires Hopeful(s, i)
    requires i < |s.calls| && s.calls[i].pc !in {Succeeded, Refused} ==> a != Statement(i, true)
    requires i < |s.calls| && s.calls[i].pc.Retry? ==> a != Delete(s.calls[i].key)
    ensures Hopeful(Next(s, a), i)
  {
  }

  lemma {:induction false} UnhinderedIsHopeful(actions: seq<Action>, i: nat)
    requires Unhindered(actions, i)
    ensures Hopeful(Run(INIT, actions), i)
    decreases |actions|
  {
    if actions != [] {
      var n := |actions| - 1;
      UnhinderedPrefix(actions, i);
      UnhinderedIsHopeful(actions[..n], i);
      assert !Fails(actions, i, n) && !Robs(actions, i, n);
      StaysHopeful(At(actions, n), actions[n], i);
    }
  }

  /** In every run a refused call has had a statement fail, or somebody has deleted its row between its
      creation, which met the unique index, and its second update. */
  lemma RefusalHasACause(actions: seq<Action>, i: nat)
    requires i < |Run(INIT, actions).calls| && Run(INIT, actions).calls[i].pc.Refused?
    ensures exists j :: 0 <= j < |actions| && (Fails(actions, i, j) || Robs(actions, i, j))
  {
    if Unhindered(actions, i) { UnhinderedIsHopeful(actions, i); }
  }

  /** From its start on no statement of the call fails and nobody deletes its key. */
  ghost predicate Undisturbed(actions: seq<Action>, i: nat) {
    forall j :: 0 <= j < |actions| && i < |At(actions, j).calls| ==>
                  actions[j] != Statement(i, true) && actions[j] != Delete(At(actions, j).calls[i].key)
  }

  /** A call none of whose statements fails and whose key nobody deletes after it has started has succeeded
      after at most three statements, whatever the other calls do. */
  lemma UndisturbedCallSucceeds(actions: seq<Action>, i: nat)
    requires i < |Run(INIT, actions).calls| && Undisturbed(actions, i) && |Meetings(actions, i)| >= 3
    ensures Run(INIT, actions).calls[i].pc.Succeeded?
  {
    OutcomeExactly(actions, i);
    if Run(INIT, actions).calls[i].pc.Refused? { RefusalHasACause(actions, i); }
  }
}
