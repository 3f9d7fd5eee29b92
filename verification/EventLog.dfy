/** What a sequence of tenancy events means to whoever folds it from the beginning, and which
    sequences are well formed: every event is admissible in the view its prefix gives. */
module EventLog {
  import opened Tenancy

  /** The resources ever created, those not deleted since, and the org each project belongs to. */
  datatype View = View(born: set<Resource>, live: set<Resource>, parent: map<Uuid, Uuid>)
  {
    function Dead(): set<Resource> { born - live }
  }

  function Apply(v: View, e: Event): View {
    match e.change
    case Created =>
      View(v.born + {e.Subject()}, v.live + {e.Subject()},
           if e.kind.ProjectKind? && e.orgId.Some? then v.parent[e.resource := e.orgId.value] else v.parent)
    case Deleted =>
      v.(live := v.live - {e.Subject()})
  }

  function Fold(log: seq<Event>): View {
    if log == [] then View({}, {}, map[]) else Apply(Fold(log[..|log| - 1]), log[|log| - 1])
  }

  /** A resource is created once under an id that nothing else has, a project under an org that is
      live and that its events name; it is deleted at most once, and an org only when none of its projects is live. */
  ghost predicate Admissible(v: View, e: Event) {
    && (e.kind.OrgKind? ==> e.orgId.None?)
    && match e.change
    case Created =>
      && (forall r :: r in v.born ==> r.id != e.resource)
      && (e.kind.ProjectKind? ==> e.orgId.Some? && Resource(OrgKind, e.orgId.value) in v.live)
    case Deleted =>
      && e.Subject() in v.live
      && (e.kind.ProjectKind? ==> e.resource in v.parent && e.orgId == Some(v.parent[e.resource]))
      && (e.kind.OrgKind? ==>
            forall r :: r in v.live && r.kind.ProjectKind? && r.id in v.parent ==> v.parent[r.id] != e.resource)
  }

  ghost predicate AdmissibleAt(log: seq<Event>, i: nat)
    requires i < |log|
  {
    Admissible(Fold(log[..i]), log[i])
  }

  ghost predicate WellFormed(log: seq<Event>) {
    forall i :: 0 <= i < |log| ==> AdmissibleAt(log, i)
  }

  lemma FoldAppend(log: seq<Event>, e: Event)
    ensures Fold(log + [e]) == Apply(Fold(log), e)
  {
    assert (log + [e])[..|log|] == log;
  }

  lemma WellFormedAppend(log: seq<Event>, e: Event)
    requires WellFormed(log) && Admissible(Fold(log), e)
    ensures WellFormed(log + [e])
  {
    forall i | 0 <= i < |log + [e]| ensures AdmissibleAt(log + [e], i) {
      assert (log + [e])[..i] == log[..i];
      if i == |log| { assert log[..i] == log; } else { assert AdmissibleAt(log, i); }
    }
  }

  lemma WellFormedPrefix(log: seq<Event>, n: nat)
    requires WellFormed(log) && n <= |log|
    ensures WellFormed(log[..n])
  {
    forall i | 0 <= i < n ensures AdmissibleAt(log[..n], i) {
      assert log[..n][..i] == log[..i];
      assert AdmissibleAt(log, i);
    }
  }

  ghost predicate Distinct(born: set<Resource>) {
    forall r, s :: r in born && s in born && r.id == s.id ==> r == s
  }

  lemma DistinctWith(born: set<Resource>, r: Resource)
    requires Distinct(born) && forall s :: s in born ==> s.id != r.id
    ensures Distinct(born + {r})
  {
  }

  /** What a well-formed log keeps true of its view. */
  ghost predicate Closed(v: View) {
    && v.live <= v.born
    && Distinct(v.born)
    && (forall p :: p in v.parent ==> Resource(ProjectKind, p) in v.born)
    && (forall r :: r in v.born && r.kind.ProjectKind? ==>
          r.id in v.parent && Resource(OrgKind, v.parent[r.id]) in v.born)
    && (forall r :: r in v.live && r.kind.ProjectKind? ==> Resource(OrgKind, v.parent[r.id]) in v.live)
  }

  lemma CreationKeepsClosed(v: View, e: Event)
    requires Closed(v) && Admissible(v, e) && e.change.Created?
    ensures Closed(Apply(v, e))
  {
    DistinctWith(v.born, e.Subject());
  }

  lemma DeletionKeepsClosed(v: View, e: Event)
    requires Closed(v) && Admissible(v, e) && e.change.Deleted?
    ensures Closed(Apply(v, e))
  {
    var w := Apply(v, e);
    forall r | r in w.live && r.kind.ProjectKind? ensures Resource(OrgKind, w.parent[r.id]) in w.live {
      assert r in v.live;
    }
  }

  lemma {:induction false} WellFormedIsClosed(log: seq<Event>)
    requires WellFormed(log)
    ensures Closed(Fold(log))
    decreases |log|
  {
    if log != [] {
      var n := |log| - 1;
      WellFormedPrefix(log, n);
      WellFormedIsClosed(log[..n]);
      assert AdmissibleAt(log, n);
      if log[n].change.Created? {
        CreationKeepsClosed(Fold(log[..n]), log[n]);
      } else {
        DeletionKeepsClosed(Fold(log[..n]), log[n]);
      }
    }
  }

  /** Later views only grow: what is born stays born, what is dead stays dead, and no project
      changes its org. */
  ghost predicate Extends(v: View, w: View) {
    && v.born <= w.born && v.Dead() <= w.Dead()
    && forall p :: p in v.parent ==> p in w.parent && w.parent[p] == v.parent[p]
  }

  lemma ApplyExtends(v: View, e: Event)
    requires Closed(v) && Admissible(v, e)
    ensures Extends(v, Apply(v, e))
  {
  }

  lemma {:induction false} PrefixExtends(log: seq<Event>, i: nat, j: nat)
    requires WellFormed(log) && i <= j <= |log|
    ensures Extends(Fold(log[..i]), Fold(log[..j]))
    decreases j
  {
    if i < j {
      PrefixExtends(log, i, j - 1);
      FoldAt(log, j - 1);
      assert AdmissibleAt(log, j - 1);
      WellFormedPrefix(log, j - 1);
      WellFormedIsClosed(log[..j - 1]);
      ApplyExtends(Fold(log[..j - 1]), log[j - 1]);
    }
  }

  /** The view just after the event at position i. */
  lemma FoldAt(log: seq<Event>, i: nat)
    requires i < |log|
    ensures Fold(log[..i + 1]) == Apply(Fold(log[..i]), log[i])
  {
    assert log[..i + 1][..i] == log[..i];
  }

  /** An event's subject is born from that event on, and dead from it on when it is a deletion. */
  lemma SubjectAfter(log: seq<Event>, i: nat, j: nat)
    requires WellFormed(log) && i < j <= |log|
    ensures log[i].Subject() in Fold(log[..j]).born
    ensures log[i].change.Deleted? ==> log[i].Subject() in Fold(log[..j]).Dead()
  {
    FoldAt(log, i);
    WellFormedPrefix(log, i);
    WellFormedIsClosed(log[..i]);
    assert AdmissibleAt(log, i);
    PrefixExtends(log, i + 1, j);
  }

  /** No resource is created twice, and none is deleted twice. */
  lemma EventsAreUnique(log: seq<Event>, i: nat, j: nat)
    requires WellFormed(log) && i < |log| && j < |log|
    requires log[i].Subject() == log[j].Subject() && log[i].change == log[j].change
    ensures i == j
  {
    if i != j {
      var a, b := if i < j then i else j, if i < j then j else i;
      assert AdmissibleAt(log, b);
      SubjectAfter(log, a, b);
      assert false;
    }
  }

  ghost predicate Has(log: seq<Event>, change: Change, r: Resource) {
    exists i :: 0 <= i < |log| && log[i].change == change && log[i].Subject() == r
  }

  ghost predicate HasOnce(log: seq<Event>, change: Change, r: Resource) {
    exists i :: 0 <= i < |log| && log[i].change == change && log[i].Subject() == r
      && forall j :: 0 <= j < |log| && log[j].change == change && log[j].Subject() == r ==> j == i
  }

  lemma HasIsOnce(log: seq<Event>, change: Change, r: Resource)
    requires WellFormed(log) && Has(log, change, r)
    ensures HasOnce(log, change, r)
  {
    var i :| 0 <= i < |log| && log[i].change == change && log[i].Subject() == r;
    forall j | 0 <= j < |log| && log[j].change == change && log[j].Subject() == r ensures j == i {
      EventsAreUnique(log, i, j);
    }
  }

  /** The fold read off the positions: a resource is born exactly when it has a created event, and
      dead exactly when it has a deleted event. */
  lemma {:induction false} FoldIsHistory(log: seq<Event>, r: Resource)
    requires WellFormed(log)
    ensures r in Fold(log).born <==> Has(log, Created, r)
    ensures r in Fold(log).Dead() <==> Has(log, Deleted, r)
    decreases |log|
  {
    if log != [] {
      var n := |log| - 1;
      var init, last := log[..n], log[n];
      WellFormedPrefix(log, n);
      FoldIsHistory(init, r);
      WellFormedIsClosed(init);
      assert AdmissibleAt(log, n);
      HasLast(log, Created, r);
      HasLast(log, Deleted, r);
    }
  }

  lemma HasLast(log: seq<Event>, change: Change, r: Resource)
    requires log != []
    ensures var n := |log| - 1;
            Has(log, change, r) <==> Has(log[..n], change, r) || (log[n].change == change && log[n].Subject() == r)
  {
    var n := |log| - 1;
    var init := log[..n];
    if Has(init, change, r) {
      var i :| 0 <= i < |init| && init[i].change == change && init[i].Subject() == r;
      assert log[i] == init[i];
    }
    if Has(log, change, r) && !(log[n].change == change && log[n].Subject() == r) {
      var i :| 0 <= i < |log| && log[i].change == change && log[i].Subject() == r;
      assert init[i] == log[i];
    }
  }

  /** Events nest: both events of a project come after its org's created event and before its org's
      deleted event, and a deletion comes after the creation it undoes. */
  lemma EventsNest(log: seq<Event>, c: nat, j: nat)
    requires WellFormed(log) && c < |log| && j < |log|
    requires log[c].change.Created? && log[c].Subject() == log[j].Subject()
    ensures log[j].change.Deleted? ==> c < j
    ensures log[c].kind.ProjectKind? ==>
              && log[c].orgId.Some?
              && (exists o :: 0 <= o < c
                    && log[o].change.Created? && log[o].Subject() == Resource(OrgKind, log[c].orgId.value))
              && (forall d :: (0 <= d < |log|
                    && log[d].change.Deleted? && log[d].Subject() == Resource(OrgKind, log[c].orgId.value)) ==>
                    j < d && exists k :: c < k < d && log[k].change.Deleted? && log[k].Subject() == log[c].Subject())
  {
    var r := log[c].Subject();
    assert AdmissibleAt(log, c);
    assert AdmissibleAt(log, j);
    if log[j].change.Deleted? && j <= c {
      SubjectAfter(log, j, c);
      assert false;
    }
    if log[c].kind.ProjectKind? {
      var org := Resource(OrgKind, log[c].orgId.value);
      WellFormedPrefix(log, c);
      WellFormedIsClosed(log[..c]);
      FoldIsHistory(log[..c], org);
      var o :| 0 <= o < |log[..c]| && log[..c][o].change == Created && log[..c][o].Subject() == org;
      assert log[o] == log[..c][o];
      forall d | 0 <= d < |log| && log[d].change.Deleted? && log[d].Subject() == org
        ensures j < d && exists k :: c < k < d && log[k].change.Deleted? && log[k].Subject() == r
      {
        DeletedBeforeOrg(log, c, d);
        var k :| c < k < d && log[k].change.Deleted? && log[k].Subject() == r;
        if log[j].change.Deleted? { EventsAreUnique(log, j, k); } else { EventsAreUnique(log, j, c); }
      }
    }
  }

  /** A project created at c whose org is deleted at d was itself deleted in between. */
  lemma DeletedBeforeOrg(log: seq<Event>, c: nat, d: nat)
    requires WellFormed(log) && c < |log| && d < |log|
    requires log[c].change.Created? && log[c].kind.ProjectKind? && log[c].orgId.Some?
    requires log[d].change.Deleted? && log[d].Subject() == Resource(OrgKind, log[c].orgId.value)
    ensures c < d
    ensures exists k :: c < k < d && log[k].change.Deleted? && log[k].Subject() == log[c].Subject()
  {
    var r := log[c].Subject();
    assert AdmissibleAt(log, c);
    assert AdmissibleAt(log, d);
    if d <= c {
      if d < c { SubjectAfter(log, d, c); }
      assert false;
    }
    FoldAt(log, c);
    PrefixExtends(log, c + 1, d);
    SubjectAfter(log, c, d);
    WellFormedPrefix(log, d);
    WellFormedIsClosed(log[..d]);
    assert r !in Fold(log[..d]).live;
    FoldIsHistory(log[..d], r);
    var k :| 0 <= k < |log[..d]| && log[..d][k].change == Deleted && log[..d][k].Subject() == r;
    assert log[k] == log[..d][k];
    if k <= c {
      assert k != c;
      SubjectAfter(log, k, c);
      assert false;
    }
  }
}
