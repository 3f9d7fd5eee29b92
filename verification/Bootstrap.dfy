/** The creation of the tenant admin: a user in Keycloak, its password, and a Secret that holds the
    password, written by runners that may fail or crash between any two remote calls and be started
    again any number of times. */
module Bootstrap {
  import opened Tenancy
  import P = Passwords

  datatype User = NoUser | User(password: Option<string>)

  /** A Secret may exist without the key the password is kept under. */
  datatype Secret = NoSecret | WithoutKey | Holding(value: string)

  datatype Cluster = Cluster(user: User, secret: Secret)

  // --- The remote calls' effects ---

  function WithUser(c: Cluster): Cluster { if c.user.NoUser? then c.(user := User(None)) else c }

  function WithPassword(c: Cluster, p: string): Cluster { if c.user.NoUser? then c else c.(user := User(Some(p))) }

  /** A Secret that exists already is left as it is, and that counts as success. */
  function WithSecret(c: Cluster, p: string): Cluster { if c.secret.NoSecret? then c.(secret := Holding(p)) else c }

  // --- Runners, one remote call at a time ---

  /** Where a run stands, and what it has read. */
  datatype Runner =
    | Stopped                                              // failed, or crashed
    | Finding                                              // the user is looked up
    | Reading(found: bool)                                 // the Secret is read
    | Creating(stored: Option<string>)                     // the user is created
    | LookingUp(stored: Option<string>)                    // and looked up again
    | Setting(stored: Option<string>)                      // the password is set
    | Writing(password: string)                            // the Secret is written
    | Done(password: string)                               // success is reported

  datatype System = System(cluster: Cluster, runners: map<nat, Runner>)

  /** A runner is started, whatever became of its last run; or it makes its next call, which is carried
      out or not and answered or not, and `made` is the password it generates if it needs one. */
  datatype Action =
    | Start(id: nat)
    | Call(id: nat, done: bool, answered: bool, made: string)

  function Advance(c: Cluster, r: Runner, done: bool, answered: bool, made: string): (Cluster, Runner) {
    match r
    case Finding => (c, if answered then Reading(c.user.User?) else Stopped)
    case Reading(found) =>
      var stored := if c.secret.Holding? then Some(c.secret.value) else None;
      (c, if !answered then Stopped
          else if found && stored.Some? then Done(stored.value)
          else if !found then Creating(stored)
          else Setting(stored))
    case Creating(stored) =>
      (if done then WithUser(c) else c, if done && answered then LookingUp(stored) else Stopped)
    case LookingUp(stored) =>
      (c, if answered && c.user.User? then Setting(stored) else Stopped)
    case Setting(stored) =>
      var p := if stored.Some? then stored.value else made;
      (if done then WithPassword(c, p) else c,
       if !done || !answered then Stopped else if stored.Some? then Done(p) else Writing(p))
    case Writing(p) =>
      (if done then WithSecret(c, p) else c, if done && answered then Done(p) else Stopped)
    case _ => (c, r)
  }

  function Next(s: System, a: Action): System {
    match a
    case Start(id) => s.(runners := s.runners[id := Finding])
    case Call(id, done, answered, made) =>
      if id in s.runners then
        var (c, r) := Advance(s.cluster, s.runners[id], done, answered, made);
        System(c, s.runners[id := r])
      else s
  }

  function Run(s: System, actions: seq<Action>): System {
    if actions == [] then s else Next(Run(s, actions[..|actions| - 1]), actions[|actions| - 1])
  }

  /** The cluster before anybody has started. */
  function Fresh(c: Cluster): System { System(c, map[]) }

  lemma RunAppend(s: System, actions: seq<Action>, a: Action)
    ensures Run(s, actions + [a]) == Next(Run(s, actions), a)
  {
    assert (actions + [a])[..|actions|] == actions;
  }

  lemma {:induction false} RunConcat(s: System, a: seq<Action>, b: seq<Action>)
    ensures Run(s, a + b) == Run(Run(s, a), b)
    decreases |b|
  {
    if b == [] {
      assert a + b == a;
    } else {
      RunConcat(s, a, b[..|b| - 1]);
      assert (a + b)[..|a + b| - 1] == a + b[..|b| - 1];
    }
  }

  // --- Which states are good ---

  /** If the Secret holds a value, the user exists and that is its password. */
  ghost predicate Agreed(c: Cluster) {
    c.secret.Holding? ==> c.user == User(Some(c.secret.value))
  }

  ghost predicate Ready(c: Cluster, p: string) { c == Cluster(User(Some(p)), Holding(p)) }

  /** The Secret has its key if it exists, and if it and the user exist they agree. */
  predicate Reconcilable(c: Cluster) {
    && !c.secret.WithoutKey?
    && (c.secret.Holding? && c.user.User? ==> c.user.password == Some(c.secret.value))
  }

  /** Some runner has reported success with a password that the user does not have or the Secret does not
      hold. */
  ghost predicate Misled(s: System) {
    exists id :: id in s.runners && s.runners[id].Done? && !Ready(s.cluster, s.runners[id].password)
  }

  ghost predicate Alone(actions: seq<Action>) { forall a :: a in actions ==> a.id == 0 }

  /** However often one runner is stopped and started again, it reports success only when that is true. */
  ghost predicate SafeAlone(c: Cluster) {
    forall actions :: Alone(actions) ==> !Misled(Run(Fresh(c), actions))
  }

  /** The same with any number of runners at once. */
  ghost predicate SafeTogether(c: Cluster) {
    forall actions :: !Misled(Run(Fresh(c), actions))
  }

  // --- One runner ---

  /** What a runner knows while nobody else interferes, from states that agree. */
  ghost predicate Informed(c: Cluster, r: Runner) {
    && Agreed(c) && !c.secret.WithoutKey?
    && match r
       case Reading(found) => found == c.user.User?
       case Creating(stored) => c == Cluster(NoUser, NoSecret) && stored.None?
       case LookingUp(stored) => c.user.User? && c.secret.NoSecret? && stored.None?
       case Setting(stored) => c.user.User? && c.secret.NoSecret? && stored.None?
       case Writing(p) => c == Cluster(User(Some(p)), NoSecret)
       case Done(p) => Ready(c, p)
       case _ => true
  }

  lemma AdvanceKeepsInformed(c: Cluster, r: Runner, done: bool, answered: bool, made: string)
    requires Informed(c, r)
    ensures var (c', r') := Advance(c, r, done, answered, made); Informed(c', r')
  {
  }

  lemma {:induction false} AloneKeepsInformed(c: Cluster, actions: seq<Action>)
    requires Agreed(c) && !c.secret.WithoutKey? && Alone(actions)
    ensures var s := Run(Fresh(c), actions);
            && Agreed(s.cluster) && !s.cluster.secret.WithoutKey?
            && (forall id :: id in s.runners ==> id == 0 && Informed(s.cluster, s.runners[id]))
    decreases |actions|
  {
    if actions != [] {
      var n := |actions| - 1;
      AloneKeepsInformed(c, actions[..n]);
      var s, a := Run(Fresh(c), actions[..n]), actions[n];
      assert a in actions;
      if a.Call? && 0 in s.runners {
        AdvanceKeepsInformed(s.cluster, s.runners[0], a.done, a.answered, a.made);
      }
    }
  }

  /** A runner with nothing written yet comes to the point of writing the Secret. */
  lemma UpToWriting(s: System, id: nat, p: string) returns (actions: seq<Action>)
    requires !s.cluster.secret.Holding?
    ensures Run(s, actions) == System(Cluster(User(Some(p)), s.cluster.secret), s.runners[id := Writing(p)])
    ensures forall a :: a in actions ==> a.id == id
  {
    var call := Call(id, true, true, p);
    actions := [];
    RunAppend(s, actions, Start(id));
    actions := actions + [Start(id)];
    RunAppend(s, actions, call);
    actions := actions + [call];
    RunAppend(s, actions, call);
    actions := actions + [call];
    if s.cluster.user.NoUser? {
      assert Run(s, actions) == System(s.cluster, s.runners[id := Creating(None)]);
      RunAppend(s, actions, call);
      actions := actions + [call];
      RunAppend(s, actions, call);
      actions := actions + [call];
    }
    assert Run(s, actions) == System(WithUser(s.cluster), s.runners[id := Setting(None)]);
    RunAppend(s, actions, call);
    actions := actions + [call];
  }

  /** A runner that finds user and Secret reports the Secret's value and changes nothing. */
  lemma FindsBoth(s: System, id: nat) returns (actions: seq<Action>)
    requires s.cluster.user.User? && s.cluster.secret.Holding?
    ensures Run(s, actions) == s.(runners := s.runners[id := Done(s.cluster.secret.value)])
    ensures forall a :: a in actions ==> a.id == id
  {
    var call := Call(id, true, true, "");
    actions := [Start(id), call];
    assert actions[..1] == [Start(id)] && actions[..1][..0] == [];
    assert Run(s, actions[..1]) == Next(s, Start(id));
    assert Run(s, actions) == System(s.cluster, s.runners[id := Reading(true)]);
    RunAppend(s, actions, call);
    actions := actions + [call];
  }

  /** With a Secret and no user, a runner comes to the point where it creates the user. */
  lemma UpToCreating(s: System, id: nat) returns (actions: seq<Action>)
    requires s.cluster.user.NoUser? && s.cluster.secret.Holding?
    ensures Run(s, actions) == s.(runners := s.runners[id := Creating(Some(s.cluster.secret.value))])
    ensures forall a :: a in actions ==> a.id == id
  {
    var call := Call(id, true, true, "");
    actions := [Start(id), call];
    assert actions[..1] == [Start(id)] && actions[..1][..0] == [];
    assert Run(s, actions[..1]) == Next(s, Start(id));
    assert Run(s, actions) == System(s.cluster, s.runners[id := Reading(false)]);
    RunAppend(s, actions, call);
    actions := actions + [call];
  }

  /** From every state that does not agree or whose Secret lacks the key, some stops and starts of one
      runner end in a false report. */
  lemma MisledAlone(c: Cluster) returns (actions: seq<Action>)
    requires !Agreed(c) || c.secret.WithoutKey?
    ensures Alone(actions) && Misled(Run(Fresh(c), actions))
  {
    var s := Fresh(c);
    if c.secret.WithoutKey? {
      actions := UpToWriting(s, 0, "");
      var last := Call(0, true, true, "");
      RunAppend(s, actions, last);
      actions := actions + [last];
      assert Run(s, actions).runners[0] == Done("");
    } else if c.user.User? {
      actions := FindsBoth(s, 0);
      assert Run(s, actions).runners[0] == Done(c.secret.value);
    } else {
      var first := UpToCreating(s, 0);
      var crash := Call(0, true, false, "");
      RunAppend(s, first, crash);
      var s1 := Run(s, first + [crash]);
      assert s1.cluster == Cluster(User(None), c.secret);
      var again := FindsBoth(s1, 0);
      RunConcat(s, first + [crash], again);
      actions := first + [crash] + again;
      assert Run(s, actions).runners[0] == Done(c.secret.value);
    }
  }

  /** Exactly when one runner can be stopped anywhere and started again any number of times: when the
      Secret, if it exists, has its key and holds the password of the user. */
  lemma SafeAloneExactly(c: Cluster)
    ensures SafeAlone(c) <==> Agreed(c) && !c.secret.WithoutKey?
  {
    if Agreed(c) && !c.secret.WithoutKey? {
      forall actions | Alone(actions) ensures !Misled(Run(Fresh(c), actions)) { AloneKeepsInformed(c, actions); }
    } else {
      var actions := MisledAlone(c);
    }
  }

  // --- Several runners ---

  ghost predicate OnlyReads(c: Cluster, r: Runner) {
    match r
    case Stopped => true
    case Finding => true
    case Reading(found) => found
    case Done(p) => c.secret == Holding(p)
    case _ => false
  }

  /** With user and Secret there, no runner ever changes anything. */
  lemma {:induction false} NothingChanges(c: Cluster, actions: seq<Action>)
    requires c.user.User? && c.secret.Holding?
    ensures var s := Run(Fresh(c), actions);
            s.cluster == c && forall id :: id in s.runners ==> OnlyReads(c, s.runners[id])
    decreases |actions|
  {
    if actions != [] { NothingChanges(c, actions[..|actions| - 1]); }
  }

  /** Two runners that both find no Secret: one sets its password while the other is about to write its
      own, and both report success. */
  lemma TwoRunnersDisagree(c: Cluster, p: string, q: string) returns (actions: seq<Action>)
    requires c.secret.NoSecret? && p != q
    ensures var s := Run(Fresh(c), actions);
            s.cluster == Cluster(User(Some(q)), Holding(q)) && s.runners == map[0 := Done(p), 1 := Done(q)]
  {
    var s := Fresh(c);
    var first := UpToWriting(s, 0, p);
    var s1 := Run(s, first);
    var second := UpToWriting(s1, 1, q);
    RunConcat(s, first, second);
    actions := first + second;
    RunAppend(s, actions, Call(1, true, true, ""));
    actions := actions + [Call(1, true, true, "")];
    RunAppend(s, actions, Call(0, true, true, ""));
    actions := actions + [Call(0, true, true, "")];
  }

  /** Exactly when any number of runners may run at once: when all is there and agrees already. */
  lemma SafeTogetherExactly(c: Cluster)
    ensures SafeTogether(c) <==> exists p :: Ready(c, p)
  {
    if exists p :: Ready(c, p) {
      forall actions ensures !Misled(Run(Fresh(c), actions)) { NothingChanges(c, actions); }
    } else if !Agreed(c) || c.secret.WithoutKey? {
      var actions := MisledAlone(c);
    } else {
      assert c.secret.Holding? ==> Ready(c, c.secret.value);
      var actions := TwoRunnersDisagree(c, "p", "q");
      assert Run(Fresh(c), actions).runners[0] == Done("p");
    }
  }

  // --- What can be repaired ---

  lemma {:induction false} KeylessStays(c: Cluster, actions: seq<Action>)
    requires c.secret.WithoutKey?
    ensures Run(Fresh(c), actions).cluster.secret.WithoutKey?
    decreases |actions|
  {
    if actions != [] { KeylessStays(c, actions[..|actions| - 1]); }
  }

  /** The actions, from the state before anybody has started, bring everything into agreement on `p`. */
  ghost predicate Achieves(c: Cluster, actions: seq<Action>, p: string) { Ready(Run(Fresh(c), actions).cluster, p) }

  lemma RepairsIt(c: Cluster) returns (actions: seq<Action>, p: string)
    requires Reconcilable(c)
    ensures Alone(actions) && Achieves(c, actions, p)
  {
    var s, call := Fresh(c), Call(0, true, true, "");
    if c.secret.NoSecret? {
      p := "";
      actions := UpToWriting(s, 0, p);
      RunAppend(s, actions, call);
      actions := actions + [call];
    } else {
      p := c.secret.value;
      if c.user.User? {
        actions := [];
      } else {
        actions := UpToCreating(s, 0);
        RunAppend(s, actions, call);
        actions := actions + [call];
        RunAppend(s, actions, call);
        actions := actions + [call];
        assert Run(s, actions) == System(WithUser(c), map[0 := Setting(Some(p))]);
        RunAppend(s, actions, call);
        actions := actions + [call];
      }
    }
  }

  /** From a state that is not reconcilable no run of anybody, however often started, brings the password
      and the Secret into agreement; from one that is, some run does. */
  lemma RepairableExactly(c: Cluster)
    ensures Reconcilable(c) <==> exists actions, p :: Achieves(c, actions, p)
  {
    if Reconcilable(c) {
      var actions, p := RepairsIt(c);
      assert Achieves(c, actions, p);
    } else {
      forall actions, p ensures !Achieves(c, actions, p) {
        if c.secret.WithoutKey? { KeylessStays(c, actions); } else { NothingChanges(c, actions); }
      }
    }
  }

  /** With the Secret there and the user gone, a run could put things right, but one that stops once it has
      created the user leaves a state that no later run repairs and every later run reports as success. */
  lemma LostUserIsNotCrashSafe(v: string) returns (stopped: seq<Action>)
    ensures var c := Cluster(NoUser, Holding(v));
            var left := Run(Fresh(c), stopped).cluster;
            && Alone(stopped) && Reconcilable(c) && !Reconcilable(left)
            && forall later, p :: !Achieves(left, later, p)
  {
    var c := Cluster(NoUser, Holding(v));
    var s, crash := Fresh(c), Call(0, true, false, "");
    stopped := UpToCreating(s, 0);
    RunAppend(s, stopped, crash);
    stopped := stopped + [crash];
    var left := Run(s, stopped).cluster;
    assert left == Cluster(User(None), Holding(v));
    forall later, p ensures !Achieves(left, later, p) { NothingChanges(left, later); }
  }

  /** A Secret without the key stays so, and every run that succeeds reports a password that it lacks. */
  lemma KeylessSecretLosesPassword(c: Cluster, actions: seq<Action>, id: nat)
    requires c.secret.WithoutKey?
    requires id in Run(Fresh(c), actions).runners && Run(Fresh(c), actions).runners[id].Done?
    ensures Misled(Run(Fresh(c), actions)) && Run(Fresh(c), actions).cluster.secret.WithoutKey?
  {
    KeylessStays(c, actions);
  }

  // --- The code ---

  /** An answer, or an error: the call was lost, or its answer was, or the runner has died meanwhile. */
  datatype Reply<+T> = Answer(value: T) | Error

  /** `reliable` says that every call is carried out and answered, and that the source of randomness
      works. */
  class Remote {
    var cluster: Cluster
    const reliable: bool

    method Outcome() returns (done: bool, answered: bool)
      ensures answered ==> done
      ensures reliable ==> answered
    {
      done, answered := *, *;
      if reliable { done, answered := true, true; }
      answered := answered && done;
    }

    method FindUserByUsername() returns (r: Reply<bool>)
      ensures r.Answer? ==> r.value == cluster.user.User?
      ensures reliable ==> r.Answer?
    {
      var done, answered := Outcome();
      if !answered { return Error; }
      return Answer(cluster.user.User?);
    }

    /** The value under the key, or nothing if the Secret or the key is missing. */
    method GetSecretValue() returns (r: Reply<Option<string>>)
      ensures reliable ==> r.Answer?
      ensures r.Answer? ==> r.value == if cluster.secret.Holding? then Some(cluster.secret.value) else None
    {
      var done, answered := Outcome();
      if !answered { return Error; }
      return Answer(if cluster.secret.Holding? then Some(cluster.secret.value) else None);
    }

    /** Creates the user unless it exists, and looks it up. */
    method CreateUser() returns (r: Reply<()>)
      modifies this
      ensures cluster == old(cluster) || cluster == WithUser(old(cluster))
      ensures r.Answer? ==> cluster == WithUser(old(cluster))
      ensures reliable ==> r.Answer?
    {
      var done, answered := Outcome();
      if done { cluster := WithUser(cluster); }
      if !answered { return Error; }
      var found := FindUserByUsername();
      if found.Error? || !found.value { return Error; }
      return Answer(());
    }

    method SetPassword(p: string) returns (r: Reply<()>)
      modifies this
      ensures cluster == old(cluster) || cluster == WithPassword(old(cluster), p)
      ensures r.Answer? ==> cluster == WithPassword(old(cluster), p)
      ensures reliable ==> r.Answer?
    {
      var done, answered := Outcome();
      if done { cluster := WithPassword(cluster, p); }
      return if answered then Answer(()) else Error;
    }

    method CreateOpaqueSecret(p: string) returns (r: Reply<()>)
      modifies this
      ensures cluster == old(cluster) || cluster == WithSecret(old(cluster), p)
      ensures r.Answer? ==> cluster == WithSecret(old(cluster), p)
      ensures reliable ==> r.Answer?
    {
      var done, answered := Outcome();
      if done { cluster := WithSecret(cluster, p); }
      return if answered then Answer(()) else Error;
    }
  }

  /** The Secret is written at most once, and a user, once there, stays. */
  ghost predicate Settles(before: Cluster, after: Cluster) {
    && (!before.secret.NoSecret? ==> after.secret == before.secret)
    && (before.secret.NoSecret? ==> !after.secret.WithoutKey?)
    && (before.user.User? ==> after.user.User?)
  }

  /** What a generator of passwords makes: sixteen characters, of each charset at least one. */
  ghost predicate Generated(p: string) { P.Strong(p, P.UPPERCASE, P.LOWERCASE, P.DIGITS, P.SPECIAL) }

  /** Every password that has been set or kept is a generated one, or the one that the Secret held. */
  ghost predicate OnlyGenerated(before: Cluster, after: Cluster) {
    && (after.secret.Holding? ==> after.secret == before.secret || Generated(after.secret.value))
    && (after.user.User? && after.user.password.Some? ==>
          || after.user == before.user
          || before.secret == Holding(after.user.password.value)
          || Generated(after.user.password.value))
  }

  function Started(c: Cluster): System { System(c, map[0 := Finding]) }

  /** The runner of the model stands where the code does. */
  ghost predicate At(start: System, actions: seq<Action>, c: Cluster, r: Runner) {
    Alone(actions) && Run(start, actions) == System(c, map[0 := r])
  }

  lemma Proceed(start: System, before: seq<Action>, c: Cluster, r: Runner, done: bool, answered: bool, made: string)
    returns (calls: seq<Action>)
    requires At(start, before, c, r)
    ensures var (c', r') := Advance(c, r, done, answered, made); At(start, calls, c', r')
  {
    RunAppend(start, before, Call(0, done, answered, made));
    calls := before + [Call(0, done, answered, made)];
  }

  /** One run of the code. It is a run of the model's runner to its end. Wherever it stops it has kept the
      agreement; when it succeeds from a state that can be reconciled, and from no other, the Secret holds
      the password it returns and the user has it. */
  method EnsureUserAndPassword(remote: Remote) returns (r: Reply<string>, ghost calls: seq<Action>)
    modifies remote
    ensures remote.reliable ==> r.Answer?
    ensures At(Started(old(remote.cluster)), calls, remote.cluster, if r.Answer? then Done(r.value) else Stopped)
    ensures Agreed(old(remote.cluster)) ==> Agreed(remote.cluster)
    ensures Settles(old(remote.cluster), remote.cluster)
    ensures OnlyGenerated(old(remote.cluster), remote.cluster)
    ensures r.Answer? && !old(remote.cluster).secret.Holding? ==> Generated(r.value)
    ensures r.Answer? && !old(remote.cluster).secret.WithoutKey? ==> remote.cluster.secret == Holding(r.value)
    ensures r.Answer? ==> (Ready(remote.cluster, r.value) <==> Reconcilable(old(remote.cluster)))
  {
    ghost var start := Started(remote.cluster);
    calls := [];
    assert At(start, calls, remote.cluster, Finding);
    var existing := remote.FindUserByUsername();
    calls := Proceed(start, calls, remote.cluster, Finding, true, existing.Answer?, "");
    if existing.Error? { return Error, calls; }
    var stored := remote.GetSecretValue();
    calls := Proceed(start, calls, remote.cluster, Reading(existing.value), true, stored.Answer?, "");
    if stored.Error? { return Error, calls; }
    if existing.value && stored.value.Some? { return Answer(stored.value.value), calls; }
    if !existing.value {
      var created;
      created, calls := EnsureUser(remote, stored.value, start, calls);
      if created.Error? { return Error, calls; }
    }
    r, calls := SetAndKeep(remote, stored.value, start, calls);
  }

  method EnsureUser(remote: Remote, stored: Option<string>, ghost start: System, ghost before: seq<Action>)
    returns (r: Reply<()>, ghost calls: seq<Action>)
    requires At(start, before, remote.cluster, Creating(stored))
    modifies remote
    ensures remote.reliable ==> r.Answer?
    ensures remote.cluster == old(remote.cluster) || remote.cluster == WithUser(old(remote.cluster))
    ensures r.Answer? ==> remote.cluster == WithUser(old(remote.cluster))
    ensures At(start, calls, remote.cluster, if r.Answer? then Setting(stored) else Stopped)
  {
    ghost var c := remote.cluster;
    r := remote.CreateUser();
    calls := Proceed(start, before, c, Creating(stored), r.Answer? || remote.cluster != c, r.Answer?, "");
    if r.Answer? { calls := Proceed(start, calls, remote.cluster, LookingUp(stored), true, true, ""); }
  }

  /** The stored password, or a new one. */
  method ChoosePassword(stored: Option<string>, working: bool) returns (r: P.Draw<string>)
    ensures working || stored.Some? ==> r.Drawn?
    ensures r.Drawn? ==> if stored.Some? then r.value == stored.value else Generated(r.value)
  {
    if stored.Some? { return P.Drawn(stored.value); }
    ghost var numbers, choices;
    r, numbers, choices := P.GeneratePassword(working);
  }

  /** The stored password, or a new one, is set for the user, and a new one is kept in the Secret. */
  method SetAndKeep(remote: Remote, stored: Option<string>, ghost start: System, ghost before: seq<Action>)
    returns (r: Reply<string>, ghost calls: seq<Action>)
    requires At(start, before, remote.cluster, Setting(stored)) && remote.cluster.user.User?
    modifies remote
    ensures remote.reliable ==> r.Answer?
    ensures At(start, calls, remote.cluster, if r.Answer? then Done(r.value) else Stopped)
    ensures || remote.cluster.secret == old(remote.cluster).secret
            || (&& stored.None? && old(remote.cluster).secret.NoSecret? && remote.cluster.secret.Holding?
                && remote.cluster.user == User(Some(remote.cluster.secret.value)))
    ensures remote.cluster.user.User?
    ensures stored.Some? ==> remote.cluster.user in {old(remote.cluster).user, User(stored)}
    ensures r.Answer? ==> remote.cluster.user == User(Some(r.value)) && (stored.Some? ==> stored == Some(r.value))
    ensures r.Answer? && stored.None? ==> remote.cluster.secret == WithSecret(old(remote.cluster), r.value).secret
    ensures r.Answer? && stored.None? ==> Generated(r.value)
    ensures stored.None? ==> OnlyGenerated(old(remote.cluster), remote.cluster)
  {
    var password := ChoosePassword(stored, remote.reliable);
    if password.NoEntropy? {
      calls := Proceed(start, before, remote.cluster, Setting(stored), false, false, "");
      return Error, calls;
    }
    r, calls := SetAndKeepThis(remote, password.value, stored, start, before);
  }

  method SetAndKeepThis(remote: Remote, password: string, stored: Option<string>, ghost start: System,
        ghost before: seq<Action>)
    returns (r: Reply<string>, ghost calls: seq<Action>)
    requires At(start, before, remote.cluster, Setting(stored)) && remote.cluster.user.User?
    requires stored.Some? ==> password == stored.value
    modifies remote
    ensures remote.reliable ==> r.Answer?
    ensures At(start, calls, remote.cluster, if r.Answer? then Done(password) else Stopped)
    ensures r.Answer? ==> r.value == password && remote.cluster.user == User(Some(password))
    ensures remote.cluster.user in {old(remote.cluster).user, User(Some(password))}
    ensures || remote.cluster.secret == old(remote.cluster).secret
            || (stored.None? && old(remote.cluster).secret.NoSecret?
                && remote.cluster == Cluster(User(Some(password)), Holding(password)))
    ensures r.Answer? && stored.None? ==> remote.cluster.secret == WithSecret(old(remote.cluster), password).secret
  {
    ghost var c := remote.cluster;
    var changed := remote.SetPassword(password);
    ghost var done := changed.Answer? || remote.cluster != c;
    calls := Proceed(start, before, c, Setting(stored), done, changed.Answer?, password);
    if changed.Error? { return Error, calls; }
    if stored.None? {
      c := remote.cluster;
      var written := remote.CreateOpaqueSecret(password);
      done := written.Answer? || remote.cluster != c;
      calls := Proceed(start, calls, c, Writing(password), done, written.Answer?, "");
      if written.Error? { return Error, calls; }
    }
    return Answer(password), calls;
  }

  /** Started over and over until a run succeeds, from a state that agrees: however the runs failed
      before, the first success returns the password that the user has and the Secret holds, and once
      the Secret was written no later run has changed it. Without a Secret to begin with, every password
      that is set or kept on the way, and the one returned, is a generated one. */
  method StartUntilDone(remote: Remote, starts: nat) returns (r: Reply<string>, ghost states: seq<Cluster>)
    requires Agreed(remote.cluster) && !remote.cluster.secret.WithoutKey?
    modifies remote
    ensures Agreed(remote.cluster) && !remote.cluster.secret.WithoutKey?
    ensures remote.reliable && starts > 0 ==> r.Answer?
    ensures r.Answer? ==> Ready(remote.cluster, r.value)
    ensures forall i :: 0 <= i < |states| ==> Agreed(states[i])
    ensures forall i :: 0 <= i < |states| && states[i].secret.Holding? ==> remote.cluster.secret == states[i].secret
    ensures starts > 0 ==> states != [] && states[0] == old(remote.cluster)
    ensures forall i :: 0 <= i < |states| ==> OnlyGenerated(old(remote.cluster), states[i])
    ensures OnlyGenerated(old(remote.cluster), remote.cluster)
    ensures r.Answer? && old(remote.cluster).secret.NoSecret? ==> Generated(r.value)
  {
    states := [];
    r := Error;
    for i := 0 to starts
      invariant Agreed(remote.cluster) && !remote.cluster.secret.WithoutKey? && r.Error?
      invariant remote.reliable ==> i == 0
      invariant |states| == i && (i == 0 ==> remote.cluster == old(remote.cluster))
      invariant i > 0 ==> states[0] == old(remote.cluster)
      invariant forall k :: 0 <= k < |states| ==> Agreed(states[k]) && OnlyGenerated(old(remote.cluster), states[k])
      invariant OnlyGenerated(old(remote.cluster), remote.cluster)
      invariant forall k :: 0 <= k < |states| && states[k].secret.Holding? ==> remote.cluster.secret == states[k].secret
    {
      states := states + [remote.cluster];
      ghost var calls;
      r, calls := EnsureUserAndPassword(remote);
      if r.Answer? { return; }
    }
  }
}
