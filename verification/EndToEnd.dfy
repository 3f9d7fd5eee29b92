/** From the store's tables to the realm: what the roles and groups in Keycloak are once the controller
    has caught up. */
module EndToEnd {
  import opened Tenancy
  import opened Uuids
  import opened Templates
  import opened Names
  import opened EventLog
  import opened Keycloak
  import opened Handlers

  // --- Which ids an item mentions ---

  ghost predicate HasId(i: Item) { exists u :: IsUuid(u) && MentionsId(i, u) }

  ghost predicate AllClean(groups: Groups) {
    forall g :: g in groups ==> Clean(g) && forall r :: r in groups[g] ==> Clean(r)
  }

  /** A name for a project that carries the org's id carries the project's id too. */
  predicate OrgWithProject(t: string) { Contains(t, ORG_HOLE) ==> Contains(t, PROJECT_HOLE) }

  ghost predicate AllWithProject(groups: Groups) {
    forall g :: g in groups ==> OrgWithProject(g) && forall r :: r in groups[g] ==> OrgWithProject(r)
  }

  ghost predicate WellTemplated(b: Blueprint) {
    AllClean(b.org) && AllClean(b.project) && AllWithProject(b.project)
  }

  /** Where an item comes from: its templates. */
  lemma ItemHasTemplates(groups: Groups, o: string, p: string, i: Item)
    requires AllClean(groups) && i in ItemsOf(groups, o, p)
    ensures exists g, r :: Clean(g) && Clean(r) && MadeOf(i, g, r, o, p)
                         && (AllWithProject(groups) ==> OrgWithProject(g) && OrgWithProject(r))
  {
    var g :| g in groups && i in ItemsFor(g, groups[g], o, p);
    if i.Group? {
      assert MadeOf(i, g, g, o, p);
    } else if i.Role? {
      var r :| r in groups[g] && i == Role(Expand(r, o, p));
      assert MadeOf(i, r, r, o, p);
    } else {
      var r :| r in groups[g] && i == Grant(Expand(g, o, p), Expand(r, o, p));
      assert MadeOf(i, g, r, o, p);
    }
  }

  predicate MadeOf(i: Item, g: string, r: string, o: string, p: string) {
    match i
    case Group(n) => n == Expand(g, o, p) && g == r
    case Role(n) => n == Expand(r, o, p) && g == r
    case Grant(x, y) => x == Expand(g, o, p) && y == Expand(r, o, p)
  }

  /** An item carries no id but those it was made with. */
  lemma ItemMentions(groups: Groups, o: string, p: string, i: Item, u: Uuid)
    requires AllClean(groups) && IsIdOrEmpty(o) && IsIdOrEmpty(p) && IsUuid(u) && i in ItemsOf(groups, o, p)
        && MentionsId(i, u)
    ensures u == o || u == p
  {
    ItemHasTemplates(groups, o, p, i);
    var g, r :| Clean(g) && Clean(r) && MadeOf(i, g, r, o, p);
    assert MadeOf(i, g, r, o, p);
    CleanName(g, o, p, u);
    CleanName(r, o, p, u);
  }

  lemma OrgItemMentions(groups: Groups, o: Uuid, i: Item, u: Uuid)
    requires AllClean(groups) && IsUuid(o) && IsUuid(u) && i in ItemsOf(groups, o, "") && MentionsId(i, u)
    ensures u == o
  {
    ItemMentions(groups, o, "", i, u);
  }

  lemma ProjectItemMentions(groups: Groups, o: string, p: Uuid, i: Item, u: Uuid)
    requires AllClean(groups) && AllWithProject(groups) && IsIdOrEmpty(o) && IsUuid(p) && IsUuid(u)
    requires i in ItemsOf(groups, o, p) && MentionsId(i, u)
    ensures (u == p || u == o) && MentionsId(i, p)
  {
    ItemHasTemplates(groups, o, p, i);
    var g, r :| Clean(g) && Clean(r) && OrgWithProject(g) && OrgWithProject(r) && MadeOf(i, g, r, o, p);
    CleanName(g, o, p, u);
    CleanName(r, o, p, u);
    CleanName(g, o, p, p);
    CleanName(r, o, p, p);
  }

  // --- What belongs to a resource ---

  /** The roles, groups and grants that a resource should have. */
  function ItemsOfResource(b: Blueprint, v: View, r: Resource): set<Item> {
    match r.kind
    case OrgKind => ItemsOf(b.org, r.id, "")
    case ProjectKind => if r.id in v.parent then ItemsOf(b.project, v.parent[r.id], r.id) else {}
  }

  ghost predicate Attributed(b: Blueprint, v: View, regarded: set<Resource>, i: Item) {
    exists r :: r in regarded && MentionsId(i, r.id) && (r in v.live ==> i in ItemsOfResource(b, v, r))
  }

  /** Whatever carries an id carries the id of a resource regarded as existing, and while that one is
      live it is one of its items. */
  ghost predicate Only(b: Blueprint, v: View, regarded: set<Resource>, items: set<Item>) {
    forall i :: i in items && HasId(i) ==> Attributed(b, v, regarded, i)
  }

  /** Live resources whose creation has been handled have all their items. */
  ghost predicate Kept(b: Blueprint, v: View, delivered: seq<Event>, items: set<Item>) {
    forall e :: e in delivered ==>
      && e.Subject() in v.born
      && (e.change.Created? && e.Subject() in v.live ==> ItemsOfResource(b, v, e.Subject()) <= items)
  }

  /** An item made for a resource, whatever org its event named. */
  ghost predicate Made(b: Blueprint, r: Resource, i: Item) {
    match r.kind
    case OrgKind => i in ItemsOf(b.org, r.id, "")
    case ProjectKind => exists o :: IsIdOrEmpty(o) && i in ItemsOf(b.project, o, r.id)
  }

  ghost predicate MadeForSome(b: Blueprint, v: View, i: Item) {
    exists r :: r in v.born && Made(b, r, i)
  }

  /** What was there in the beginning stays, and everything else without an id was made for a resource. */
  ghost predicate Explained(b: Blueprint, base: set<Item>, v: View, items: set<Item>) {
    && base <= items
    && forall i :: i in items && i !in base && !HasId(i) ==> MadeForSome(b, v, i)
  }

  ghost predicate BaseOk(base: set<Item>) {
    Sound(base) && forall i :: i in base ==> !HasId(i)
  }

  ghost predicate RealmInv(b: Blueprint, base: set<Item>, v: View, regarded: set<Resource>, delivered: seq<Event>,
        items: set<Item>)
  {
    && Only(b, v, regarded, items)
    && Kept(b, v, delivered, items)
    && Explained(b, base, v, items)
  }

  // --- What is known of an event when it is handled ---

  /** The facts about an event on which its handling relies. */
  ghost predicate Sensible(v: View, e: Event) {
    && IsUuid(e.resource) && (e.orgId.Some? ==> IsUuid(e.orgId.value))
    && e.Subject() in v.born
    && (e.change.Deleted? ==> e.Subject() in v.Dead())
    && (e.change.Created? && e.kind.ProjectKind? && e.Subject() in v.live ==>
          e.resource in v.parent && e.orgId == Some(v.parent[e.resource]))
  }

  /** The facts about the view. */
  ghost predicate Ids(v: View) {
    && Closed(v)
    && (forall r :: r in v.born ==> IsUuid(r.id))
  }

  /** An item wanted for an event that carries an id carries the id of its subject. */
  lemma WantedMentions(b: Blueprint, v: View, e: Event, i: Item)
    requires WellTemplated(b) && Sensible(v, e) && e.change.Created? && i in Wanted(b, e) && HasId(i)
    ensures MentionsId(i, e.resource)
  {
    var u :| IsUuid(u) && MentionsId(i, u);
    if e.kind.OrgKind? {
      OrgItemMentions(b.org, e.resource, i, u);
    } else {
      ProjectItemMentions(b.project, if e.orgId.Some? then e.orgId.value else "", e.resource, i, u);
    }
  }

  lemma WantedIsMade(b: Blueprint, v: View, e: Event, i: Item)
    requires Sensible(v, e) && i in Wanted(b, e)
    ensures Made(b, e.Subject(), i)
  {
    if e.kind.ProjectKind? { assert IsIdOrEmpty(if e.orgId.Some? then e.orgId.value else ""); }
  }

  lemma WantedForLive(b: Blueprint, v: View, e: Event)
    requires Sensible(v, e) && e.change.Created? && e.Subject() in v.live
    ensures Wanted(b, e) == ItemsOfResource(b, v, e.Subject())
  {
  }

  /** An item of a live resource does not carry the id of a dead one. */
  lemma LiveItemsSurvive(b: Blueprint, v: View, r: Resource, d: Resource, i: Item)
    requires WellTemplated(b) && Ids(v) && r in v.live && d in v.Dead() && i in ItemsOfResource(b, v, r)
    ensures !MentionsId(i, d.id)
  {
    if MentionsId(i, d.id) {
      if r.kind.OrgKind? {
        OrgItemMentions(b.org, r.id, i, d.id);
      } else {
        var org := Resource(OrgKind, v.parent[r.id]);
        assert org in v.live;
        ProjectItemMentions(b.project, org.id, r.id, i, d.id);
      }
    }
  }

  // --- Handling keeps the invariant ---

  lemma CreationKeepsOnly(b: Blueprint, v: View, regarded: set<Resource>, items: set<Item>, items': set<Item>, e: Event)
    requires WellTemplated(b) && Sensible(v, e) && e.change.Created?
    requires Only(b, v, regarded, items) && items' <= items + Wanted(b, e)
    ensures Only(b, v, regarded + {e.Subject()}, items')
  {
    var more := regarded + {e.Subject()};
    forall i | i in items' && HasId(i) ensures Attributed(b, v, more, i) {
      if i in items {
        var r :| r in regarded && MentionsId(i, r.id) && (r in v.live ==> i in ItemsOfResource(b, v, r));
        assert r in more;
      } else {
        WantedMentions(b, v, e, i);
        if e.Subject() in v.live { WantedForLive(b, v, e); }
        assert e.Subject() in more;
      }
    }
  }

  lemma CreationKeepsKept(b: Blueprint, v: View, delivered: seq<Event>, items: set<Item>, items': set<Item>, e: Event,
        ok: bool)
    requires Sensible(v, e) && e.change.Created? && Kept(b, v, delivered, items)
        && Adds(items, items', Wanted(b, e), ok)
    ensures Kept(b, v, delivered, items')
    ensures ok ==> Kept(b, v, delivered + [e], items')
  {
    if e.Subject() in v.live { WantedForLive(b, v, e); }
  }

  lemma DeletionKeepsOnly(b: Blueprint, v: View, regarded: set<Resource>, items: set<Item>, items': set<Item>, e: Event)
    requires Only(b, v, regarded, items) && items' <= items
    ensures Only(b, v, regarded, items')
    ensures items' == Without(items, e.resource) ==> Only(b, v, regarded - {e.Subject()}, items')
  {
    if items' == Without(items, e.resource) {
      forall i | i in items' && HasId(i) ensures Attributed(b, v, regarded - {e.Subject()}, i) {
        var r :| r in regarded && MentionsId(i, r.id) && (r in v.live ==> i in ItemsOfResource(b, v, r));
        assert r in regarded - {e.Subject()};
      }
    }
  }

  lemma DeletionKeepsKept(b: Blueprint, v: View, delivered: seq<Event>, items: set<Item>, items': set<Item>, e: Event)
    requires WellTemplated(b) && Ids(v) && Sensible(v, e) && e.change.Deleted? && Kept(b, v, delivered, items)
    requires Without(items, e.resource) <= items'
    ensures Kept(b, v, delivered, items') && Kept(b, v, delivered + [e], items')
  {
    forall d | d in delivered && d.change.Created? && d.Subject() in v.live
      ensures ItemsOfResource(b, v, d.Subject()) <= items'
    {
      forall i | i in ItemsOfResource(b, v, d.Subject()) ensures i in items' {
        LiveItemsSurvive(b, v, d.Subject(), e.Subject(), i);
        assert i in items && i in Without(items, e.resource);
      }
    }
  }

  lemma HandlingKeepsExplained(b: Blueprint, base: set<Item>, v: View, items: set<Item>, items': set<Item>,
                               e: Event, ok: bool)
    requires BaseOk(base) && Sensible(v, e) && Explained(b, base, v, items) && Handles(b, items, items', e, ok)
    ensures Explained(b, base, v, items')
  {
    if e.change.Created? {
      forall i | i in items' && i !in base && !HasId(i) ensures MadeForSome(b, v, i) {
        if i !in items { WantedIsMade(b, v, e, i); }
      }
    } else {
      forall i | i in base ensures i in items' {
        assert !HasId(i);
        assert i in Without(items, e.resource);
      }
    }
  }

  /** An attempt that ends with an error. */
  lemma AttemptKeepsRealm(b: Blueprint, base: set<Item>, v: View, regarded: set<Resource>, delivered: seq<Event>,
                          items: set<Item>, items': set<Item>, e: Event)
    requires WellTemplated(b) && BaseOk(base) && Ids(v) && Sensible(v, e)
    requires RealmInv(b, base, v, regarded, delivered, items) && Handles(b, items, items', e, false)
    ensures RealmInv(b, base, v, if e.change.Created? then regarded + {e.Subject()} else regarded, delivered, items')
  {
    HandlingKeepsExplained(b, base, v, items, items', e, false);
    if e.change.Created? {
      CreationKeepsOnly(b, v, regarded, items, items', e);
      CreationKeepsKept(b, v, delivered, items, items', e, false);
    } else {
      DeletionKeepsOnly(b, v, regarded, items, items', e);
      DeletionKeepsKept(b, v, delivered, items, items', e);
    }
  }

  /** Handling that succeeds. */
  lemma DeliveryKeepsRealm(b: Blueprint, base: set<Item>, v: View, regarded: set<Resource>, delivered: seq<Event>,
                           items: set<Item>, items': set<Item>, e: Event)
    requires WellTemplated(b) && BaseOk(base) && Ids(v) && Sensible(v, e)
    requires RealmInv(b, base, v, regarded, delivered, items) && Handles(b, items, items', e, true)
    ensures RealmInv(b, base, v,
                     if e.change.Created? then regarded + {e.Subject()} else regarded - {e.Subject()},
                     delivered + [e], items')
  {
    HandlingKeepsExplained(b, base, v, items, items', e, true);
    if e.change.Created? {
      CreationKeepsOnly(b, v, regarded, items, items', e);
      CreationKeepsKept(b, v, delivered, items, items', e, true);
    } else {
      DeletionKeepsOnly(b, v, regarded, items, items', e);
      DeletionKeepsKept(b, v, delivered, items, items', e);
    }
  }

  // --- What the store does keeps it too ---

  lemma ItemsAreStable(b: Blueprint, v: View, u: View, r: Resource)
    requires Closed(v) && Extends(v, u) && r in v.born
    ensures ItemsOfResource(b, u, r) == ItemsOfResource(b, v, r)
  {
  }

  lemma StoreKeepsRealm(b: Blueprint, base: set<Item>, v: View, u: View, regarded: set<Resource>,
        delivered: seq<Event>, items: set<Item>)
    requires Closed(v) && Extends(v, u) && regarded <= v.born && RealmInv(b, base, v, regarded, delivered, items)
    ensures RealmInv(b, base, u, regarded, delivered, items)
  {
    forall r | r in v.born
      ensures ItemsOfResource(b, u, r) == ItemsOfResource(b, v, r) && (r in u.live ==> r in v.live)
    {
      ItemsAreStable(b, v, u, r);
      assert r in v.Dead() ==> r in u.Dead();
    }
    forall i | i in items && HasId(i) ensures Attributed(b, u, regarded, i) {
      var r :| r in regarded && MentionsId(i, r.id) && (r in v.live ==> i in ItemsOfResource(b, v, r));
      assert r in v.born;
    }
  }

  // --- The realm of a controller that has caught up ---

  ghost predicate Handled(delivered: seq<Event>, r: Resource) {
    exists e :: e in delivered && e.change.Created? && e.Subject() == r
  }

  lemma {:induction false} NothingToReplaceIn(t: string, a: string, x: string)
    requires a != "" && !Contains(t, a)
    ensures ReplaceAll(t, a, x) == t
    decreases |t|
  {
    if t != "" { NothingToReplaceIn(t[1..], a, x); }
  }

  // --- Items without an id ---

  /** What a template gives without ids. */
  function Bare(t: string): string { Expand(t, "", "") }

  /** The roles, groups and grants whose templates do not have the placeholder. */
  function BareItems(groups: Groups, hole: string): set<Item> {
    set g, i | g in groups && i in BareItemsFor(g, groups[g], hole) :: i
  }

  function BareItemsFor(g: string, roles: seq<string>, hole: string): set<Item> {
    (if Contains(g, hole) then {} else {Group(Bare(g))})
    + (set r | r in roles && !Contains(r, hole) :: Role(Bare(r)))
    + (set r | r in roles && !Contains(g, hole) && !Contains(r, hole) :: Grant(Bare(g), Bare(r)))
  }

  /** The same for a kind, with the kind's own placeholder. */
  function BareItemsOf(b: Blueprint, kind: Kind): set<Item> {
    match kind
    case OrgKind => BareItems(b.org, ORG_HOLE)
    case ProjectKind => BareItems(b.project, PROJECT_HOLE)
  }

  /** The placeholder is the own one of what has the id. */
  predicate OwnHole(hole: string, o: string, p: string, id: Uuid) {
    IsUuid(id) && IsIdOrEmpty(o) && ((hole == ORG_HOLE && o == id && p == "") || (hole == PROJECT_HOLE && p == id))
  }

  /** A name has an id exactly if its template has the own placeholder. */
  ghost predicate NamedAsBare(t: string, o: string, p: string, hole: string) {
    && (!Contains(t, hole) ==> Expand(t, o, p) == Bare(t))
    && (Contains(t, hole) <==> exists u :: IsUuid(u) && Contains(Expand(t, o, p), u))
  }

  /** Without its own placeholder a name is the same for all ids, and has none. */
  lemma BareName(t: string, o: string, p: string, hole: string, id: Uuid)
    requires Clean(t) && OwnHole(hole, o, p, id) && (hole == PROJECT_HOLE ==> OrgWithProject(t))
    ensures NamedAsBare(t, o, p, hole)
  {
    if Contains(t, hole) {
      CleanName(t, o, p, id);
    } else {
      NothingToReplaceIn(t, hole, id);
      NothingToReplaceIn(t, hole, "");
      if hole == PROJECT_HOLE {
        NothingToReplaceIn(t, ORG_HOLE, o);
        NothingToReplaceIn(t, ORG_HOLE, "");
      }
      forall u | IsUuid(u) ensures !Contains(Bare(t), u) { CleanName(t, "", "", u); }
    }
  }

  lemma NoIdInNames(i: Item)
    ensures i.Group? ==> (HasId(i) <==> exists u :: IsUuid(u) && Contains(i.name, u))
    ensures i.Role? ==> (HasId(i) <==> exists u :: IsUuid(u) && Contains(i.name, u))
    ensures i.Grant? ==> (HasId(i) <==>
              (exists u :: IsUuid(u) && Contains(i.group, u)) || exists u :: IsUuid(u) && Contains(i.role, u))
  {
    if HasId(i) {
      var u :| IsUuid(u) && MentionsId(i, u);
    }
    if i.Grant? {
      if u :| IsUuid(u) && (Contains(i.group, u) || Contains(i.role, u)) { assert MentionsId(i, u); }
    } else if u :| IsUuid(u) && Contains(i.name, u) {
      assert MentionsId(i, u);
    }
  }

  /** The items of one group that have no id are those whose templates do not have the own placeholder. */
  lemma BareItemsOfGroup(g: string, roles: seq<string>, o: string, p: string, hole: string, i: Item)
    requires NamedAsBare(g, o, p, hole) && forall r :: r in roles ==> NamedAsBare(r, o, p, hole)
    ensures i in ItemsFor(g, roles, o, p) && !HasId(i) <==> i in BareItemsFor(g, roles, hole)
  {
    NoIdInNames(i);
    if i in ItemsFor(g, roles, o, p) && !HasId(i) {
      match i
      case Group(_) =>
      case Role(n) =>
        var r :| r in roles && n == Expand(r, o, p);
        assert !Contains(r, hole);
      case Grant(_, n) =>
        var r :| r in roles && n == Expand(r, o, p);
        assert !Contains(r, hole);
    }
  }

  /** The items without an id of a resource are the same for all resources of the kind. */
  lemma BareItemsExactly(groups: Groups, o: string, p: string, hole: string, id: Uuid, i: Item)
    requires AllClean(groups) && OwnHole(hole, o, p, id) && (hole == PROJECT_HOLE ==> AllWithProject(groups))
    ensures i in ItemsOf(groups, o, p) && !HasId(i) <==> i in BareItems(groups, hole)
  {
    forall g | g in groups
      ensures i in ItemsFor(g, groups[g], o, p) && !HasId(i) <==> i in BareItemsFor(g, groups[g], hole)
    {
      BareName(g, o, p, hole, id);
      forall r | r in groups[g] ensures NamedAsBare(r, o, p, hole) { BareName(r, o, p, hole, id); }
      BareItemsOfGroup(g, groups[g], o, p, hole, i);
    }
  }

  lemma MadeAreBare(b: Blueprint, r: Resource, i: Item)
    requires WellTemplated(b) && IsUuid(r.id)
    ensures Made(b, r, i) && !HasId(i) <==> i in BareItemsOf(b, r.kind)
  {
    match r.kind
    case OrgKind => BareItemsExactly(b.org, r.id, "", ORG_HOLE, r.id, i);
    case ProjectKind =>
      forall o | IsIdOrEmpty(o)
        ensures i in ItemsOf(b.project, o, r.id) && !HasId(i) <==> i in BareItems(b.project, PROJECT_HOLE)
      {
        BareItemsExactly(b.project, o, r.id, PROJECT_HOLE, r.id, i);
      }
      assert IsIdOrEmpty("");
  }

  lemma LiveHasBareItems(b: Blueprint, v: View, q: Resource)
    requires WellTemplated(b) && Ids(v) && q in v.live
    ensures BareItemsOf(b, q.kind) <= ItemsOfResource(b, v, q)
  {
    forall i | i in BareItemsOf(b, q.kind) ensures i in ItemsOfResource(b, v, q) {
      match q.kind
      case OrgKind => BareItemsExactly(b.org, q.id, "", ORG_HOLE, q.id, i);
      case ProjectKind =>
        assert Resource(OrgKind, v.parent[q.id]) in v.born;
        BareItemsExactly(b.project, v.parent[q.id], q.id, PROJECT_HOLE, q.id, i);
    }
  }

  /** An item without an id made for one resource is made for every live one of the kind. */
  lemma SharedByKind(b: Blueprint, v: View, r: Resource, q: Resource, i: Item)
    requires WellTemplated(b) && Ids(v) && r in v.born && q in v.live && r.kind == q.kind
    requires Made(b, r, i) && !HasId(i)
    ensures i in ItemsOfResource(b, v, q)
  {
    MadeAreBare(b, r, i);
    LiveHasBareItems(b, v, q);
  }

  /** What can be left over: a role, group or grant without an id, made for a resource of a kind of which
      none is live any more. */
  ghost predicate Leftover(b: Blueprint, v: View, i: Item) {
    !HasId(i) && exists r :: r in v.born && Made(b, r, i) && forall q :: q in v.live ==> q.kind != r.kind
  }

  ghost predicate OfLive(b: Blueprint, v: View, i: Item) {
    exists r :: r in v.live && i in ItemsOfResource(b, v, r)
  }

  /** Of a controller that regards exactly the live resources as existing and has handled them all: the
      realm has the base and everything of the live resources, and nothing else but leftovers. */
  lemma RealmIsExact(b: Blueprint, base: set<Item>, v: View, regarded: set<Resource>, delivered: seq<Event>,
        items: set<Item>)
    requires WellTemplated(b) && Ids(v) && RealmInv(b, base, v, regarded, delivered, items)
    requires regarded == v.live && forall r :: r in v.live ==> Handled(delivered, r)
    ensures forall i :: i in base || OfLive(b, v, i) ==> i in items
    ensures forall i :: i in items ==> i in base || OfLive(b, v, i) || Leftover(b, v, i)
  {
    forall r | r in v.live ensures ItemsOfResource(b, v, r) <= items {
      var e :| e in delivered && e.change.Created? && e.Subject() == r;
    }
    forall i | i in items && i !in base ensures OfLive(b, v, i) || Leftover(b, v, i) {
      if HasId(i) {
        var r :| r in regarded && MentionsId(i, r.id) && (r in v.live ==> i in ItemsOfResource(b, v, r));
      } else {
        var r :| r in v.born && Made(b, r, i);
        if q :| q in v.live && q.kind == r.kind { SharedByKind(b, v, r, q, i); }
      }
    }
  }

  // --- When nothing is left over ---

  /** Nothing of a kind can be left over: what its templates give without its placeholder is in the base,
      or one of the kind is live, or none was ever created. */
  ghost predicate Tight(b: Blueprint, base: set<Item>, v: View, kind: Kind) {
    || BareItemsOf(b, kind) <= base
    || (exists q :: q in v.live && q.kind == kind)
    || (forall r :: r in v.born ==> r.kind != kind)
  }

  lemma NothingLeftOver(b: Blueprint, base: set<Item>, v: View, i: Item)
    requires WellTemplated(b) && Ids(v) && Tight(b, base, v, OrgKind) && Tight(b, base, v, ProjectKind)
    ensures Leftover(b, v, i) ==> i in base
  {
    if Leftover(b, v, i) {
      var r :| r in v.born && Made(b, r, i) && forall q :: q in v.live ==> q.kind != r.kind;
      MadeAreBare(b, r, i);
    }
  }
}
