/** The Keycloak client: roles and groups created from templates and deleted by the id in their names,
    against a Keycloak that may fail, may answer that it created something it did not, and may have done
    something it reports as failed. */
module Keycloak {
  import opened Tenancy
  import opened Templates

  datatype Item = Role(name: string) | Group(name: string) | Grant(group: string, role: string)

  /** The group templates, each with the templates of its roles. */
  type Groups = map<string, seq<string>>

  // --- The specification ---

  function ItemsOf(groups: Groups, o: string, p: string): set<Item> {
    set g, i | g in groups && i in ItemsFor(g, groups[g], o, p) :: i
  }

  function ItemsFor(g: string, roles: seq<string>, o: string, p: string): set<Item> {
    {Group(Expand(g, o, p))}
    + (set r | r in roles :: Role(Expand(r, o, p)))
    + (set r | r in roles :: Grant(Expand(g, o, p), Expand(r, o, p)))
  }

  predicate MentionsId(i: Item, id: string) {
    match i
    case Role(n) => Contains(n, id)
    case Group(n) => Contains(n, id)
    case Grant(g, r) => Contains(g, id) || Contains(r, id)
  }

  function Without(items: set<Item>, id: string): set<Item> {
    set i | i in items && !MentionsId(i, id)
  }

  /** A role is granted to a group only while both exist. */
  ghost predicate Sound(items: set<Item>) {
    forall g, r :: Grant(g, r) in items ==> Group(g) in items && Role(r) in items
  }

  // --- The remote service ---

  const REALM := "master"

  function Failing(what: string): string { "failed to create " + what + " " }

  function Because(why: string): string { " in realm " + REALM + ": " + why }

  function Failure(what: string, name: string, why: string): string { Failing(what) + (name + Because(why)) }

  const CONFLICT := "409"

  predicate IsErrorForAlreadyExists(text: string) { Contains(text, CONFLICT) }

  lemma ReasonShows(what: string, name: string, why: string)
    requires Contains(why, CONFLICT)
    ensures IsErrorForAlreadyExists(Failure(what, name, why))
  {
    ContainsAfter(" in realm " + REALM + ": ", why, CONFLICT);
    ContainsAfter(name, Because(why), CONFLICT);
    ContainsAfter(Failing(what), name + Because(why), CONFLICT);
  }

  lemma {:induction false} ContainsBefore(s: string, x: string, part: string)
    requires Contains(s, part)
    ensures Contains(s + x, part)
    decreases |s|
  {
    if !(part <= s) {
      ContainsBefore(s[1..], x, part);
      assert (s + x)[1..] == s[1..] + x;
    }
  }

  lemma NothingAcross(s: string, x: string, part: string)
    requires part <= s + x && x != "" && x[0] !in part
    ensures part <= s
  {
    assert (s + x)[|s|] == x[0];
    assert forall k :: 0 <= k < |part| ==> part[k] != x[0];
  }

  /** At a seam that begins with none of its characters a text adds no occurrence. */
  lemma {:induction false} ContainsEither(s: string, x: string, part: string)
    requires Contains(s + x, part) && x != "" && x[0] !in part
    ensures Contains(s, part) || Contains(x, part)
    decreases |s|
  {
    if s == "" {
      assert s + x == x;
    } else if part <= s + x {
      NothingAcross(s, x, part);
    } else {
      assert (s + x)[1..] == s[1..] + x;
      ContainsEither(s[1..], x, part);
    }
  }

  lemma NotIn(s: string, x: string, part: string)
    requires part != "" && (forall i :: 0 <= i < |s| ==> s[i] != part[0]) && Contains(s + x, part)
    ensures Contains(x, part)
  {
    forall i | 0 <= i < |s| ensures !(part <= s[i..] + x) { assert (s[i..] + x)[0] == s[i]; }
    ContainsBeyond(s, x, part);
  }

  /** An error reads as "already exists" exactly if the name or the reason says "409". */
  lemma ReadsAsConflictExactly(what: string, name: string, why: string)
    requires what in {"group", "role"}
    ensures IsErrorForAlreadyExists(Failure(what, name, why)) <==> Contains(name, "409") || Contains(why, "409")
  {
    if Contains(why, "409") { ReasonShows(what, name, why); }
    if Contains(name, "409") { NameReadsAsConflict(what, name, why); }
    if IsErrorForAlreadyExists(Failure(what, name, why)) {
      NotIn(Failing(what), name + Because(why), "409");
      ContainsEither(name, Because(why), "409");
      if Contains(Because(why), "409") { NotIn(" in realm " + REALM + ": ", why, "409"); }
    }
  }

  /** The text of an error carries the name, so under a name with "409" in it every error reads as
      "already exists"; see Client.CreateOnce for why that does no harm. */
  lemma NameReadsAsConflict(what: string, name: string, why: string)
    requires Contains(name, CONFLICT)
    ensures IsErrorForAlreadyExists(Failure(what, name, why))
  {
    ContainsBefore(name, Because(why), CONFLICT);
    ContainsAfter(Failing(what), name + Because(why), CONFLICT);
  }

  /** Keycloak's answers: `reliable` says that it never fails and does what it answers. */
  class Realm {
    var items: set<Item>
    const reliable: bool
    ghost var failedLists: nat   // how many list requests have failed
    ghost var faults: nat        // how many requests of any kind have failed or not done what they answered
    ghost var refused: nat       // how many creations have ended in an error without "409" in its text

    constructor (items: set<Item>, reliable: bool)
      requires Sound(items)
      ensures this.items == items && this.reliable == reliable
    {
      this.items, this.reliable, this.failedLists, this.faults, this.refused := items, reliable, 0, 0, 0;
    }

    method Reach() returns (down: bool)
      modifies this`faults
      ensures faults == old(faults) + if down then 1 else 0
      ensures reliable ==> !down
    {
      down := *;
      down := down && !reliable;
      if down { faults := faults + 1; }
    }

    /** Creates a group or a role. */
    method Create(what: string, item: Item) returns (err: Option<string>)
      requires Sound(items) && !item.Grant?
      modifies this`items, this`faults, this`refused
      ensures Sound(items) && old(items) <= items <= old(items) + {item}
      ensures refused == old(refused) + if err.Some? && !Contains(err.value, "409") then 1 else 0
      ensures faults >= old(faults) && (reliable ==> faults == old(faults))
      ensures faults == old(faults) ==> item in items && (err.Some? ==> IsErrorForAlreadyExists(err.value))
    {
      var down := Reach();
      if down {
        var late: bool, why: string := *, *;
        if late { items := items + {item}; }
        err := Some(Failure(what, item.name, why));
        if !Contains(err.value, "409") { refused := refused + 1; }
        return;
      }
      if item in items {
        assert "409" <= "409 Conflict";
        ReasonShows(what, item.name, "409 Conflict");
        return Some(Failure(what, item.name, "409 Conflict"));
      }
      var dropped: bool := *;
      if reliable || !dropped { items := items + {item}; } else { faults := faults + 1; }
      return None;
    }

    method GetRoles() returns (r: Option<seq<string>>)
      modifies this`failedLists, this`faults
      ensures r.Some? ==> forall n :: n in r.value <==> Role(n) in items
      ensures failedLists == old(failedLists) + if r.None? then 1 else 0
      ensures faults == old(faults) + if r.None? then 1 else 0
      ensures reliable ==> r.Some?
    {
      var down := Reach();
      if down {
        failedLists := failedLists + 1;
        return None;
      }
      var names := Sequence(set i | i in items && i.Role? :: i.name);
      return Some(names);
    }

    method GetGroups() returns (r: Option<seq<string>>)
      modifies this`failedLists, this`faults
      ensures r.Some? ==> forall n :: n in r.value <==> Group(n) in items
      ensures failedLists == old(failedLists) + if r.None? then 1 else 0
      ensures faults == old(faults) + if r.None? then 1 else 0
      ensures reliable ==> r.Some?
    {
      var down := Reach();
      if down {
        failedLists := failedLists + 1;
        return None;
      }
      var names := Sequence(set i | i in items && i.Group? :: i.name);
      return Some(names);
    }

    /** Grants roles to a group; when it reports an error it may have granted some. */
    method AddRealmRoleToGroup(g: string, roles: seq<string>) returns (ok: bool)
      requires Sound(items) && Group(g) in items && forall r :: r in roles ==> Role(r) in items
      modifies this`items, this`faults
      ensures Sound(items) && old(items) <= items <= old(items) + set r | r in roles :: Grant(g, r)
      ensures ok ==> items == old(items) + set r | r in roles :: Grant(g, r)
      ensures faults == old(faults) + if ok then 0 else 1
      ensures reliable ==> ok
    {
      var down := Reach();
      var n := |roles|;
      if down {
        n := *;
        if n > |roles| || n < 0 { n := 0; }
      }
      assert roles[..|roles|] == roles;
      items := items + set r | r in roles[..n] :: Grant(g, r);
      ok := !down;
    }

    /** Deletes a role or a group with the grants it has part in. */
    method Delete(item: Item) returns (ok: bool)
      requires Sound(items) && item in items && !item.Grant?
      modifies this`items, this`faults
      ensures Sound(items)
      ensures items == old(items) || items == Removed(old(items), item)
      ensures ok ==> items == Removed(old(items), item)
      ensures faults == old(faults) + if ok then 0 else 1
      ensures reliable ==> ok
    {
      var down := Reach();
      var late: bool := *;
      if !down || late { items := set i | i in items && !PartOf(i, item); }
      ok := !down;
    }
  }

  predicate PartOf(i: Item, item: Item) {
    i == item || (i.Grant? && (item == Group(i.group) || item == Role(i.role)))
  }

  function Removed(items: set<Item>, item: Item): set<Item> {
    set i | i in items && !PartOf(i, item)
  }

  method Sequence(s: set<string>) returns (names: seq<string>)
    ensures forall n :: n in names <==> n in s
  {
    names := [];
    var rest := s;
    while rest != {}
      invariant rest <= s
      invariant forall n :: n in names <==> n in s && n !in rest
      decreases |rest|
    {
      var n :| n in rest;
      names, rest := names + [n], rest - {n};
    }
  }

  // --- The client ---

  const RETRY_ATTEMPTS := 10

  lemma ItemsForAreItems(groups: Groups, g: string, o: string, p: string)
    requires g in groups
    ensures ItemsFor(g, groups[g], o, p) <= ItemsOf(groups, o, p)
  {
  }

  lemma ItemsAreItemsFor(groups: Groups, o: string, p: string, items: set<Item>)
    requires forall g :: g in groups ==> ItemsFor(g, groups[g], o, p) <= items
    ensures ItemsOf(groups, o, p) <= items
  {
    forall i | i in ItemsOf(groups, o, p) ensures i in items {
      var g :| g in groups && i in ItemsFor(g, groups[g], o, p);
    }
  }

  /** Every group and every role of the templates is there, and the roles are granted to their group. */
  ghost predicate Provided(items: set<Item>, groups: Groups, o: string, p: string) {
    forall g :: g in groups ==>
      && Group(Expand(g, o, p)) in items
      && forall r :: r in groups[g] ==>
           Role(Expand(r, o, p)) in items && Grant(Expand(g, o, p), Expand(r, o, p)) in items
  }

  lemma AllIsProvided(items: set<Item>, groups: Groups, o: string, p: string)
    requires ItemsOf(groups, o, p) <= items
    ensures Provided(items, groups, o, p)
  {
    forall g | g in groups ensures ItemsFor(g, groups[g], o, p) <= items { ItemsForAreItems(groups, g, o, p); }
  }

  class Client {
    const realm: Realm
    var orgGroups: Groups
    var projectGroups: Groups

    constructor (realm: Realm, orgGroups: Groups, projectGroups: Groups)
      ensures this.realm == realm && this.orgGroups == orgGroups && this.projectGroups == projectGroups
    {
      this.realm, this.orgGroups, this.projectGroups := realm, orgGroups, projectGroups;
    }

    method CreateOrg(o: Uuid) returns (ok: bool)
      requires Sound(realm.items)
      modifies realm
      ensures Adds(old(realm.items), realm.items, ItemsOf(orgGroups, o, ""), ok)
      ensures realm.reliable || realm.faults == old(realm.faults) ==> ok
    {
      ghost var rounds, created;
      ok, rounds, created := CreateRolesAndGroups(o, "", orgGroups);
    }

    method CreateProject(o: string, p: Uuid) returns (ok: bool)
      requires Sound(realm.items)
      modifies realm
      ensures Adds(old(realm.items), realm.items, ItemsOf(projectGroups, o, p), ok)
      ensures realm.reliable || realm.faults == old(realm.faults) ==> ok
    {
      ghost var rounds, created;
      ok, rounds, created := CreateRolesAndGroups(o, p, projectGroups);
    }

    method DeleteOrg(o: Uuid) returns (ok: bool)
      requires Sound(realm.items)
      modifies realm
      ensures Removes(old(realm.items), realm.items, o, ok)
      ensures realm.reliable || realm.faults == old(realm.faults) ==> ok
    {
      ok := DeleteRolesAndGroups(o);
    }

    method DeleteProject(p: Uuid) returns (ok: bool)
      requires Sound(realm.items)
      modifies realm
      ensures Removes(old(realm.items), realm.items, p, ok)
      ensures realm.reliable || realm.faults == old(realm.faults) ==> ok
    {
      ok := DeleteRolesAndGroups(p);
    }

    /** Rounds over the groups, in any order; `created` says whether the last one went through, so that the
        lists were checked after it. An error is reported only after a fault: either a round was cut short by
        one that is not a failed check, or all of the eleven checks have failed to get their lists; the
        first check that gets them ends in success. It only ever adds what the templates expand to, and
        reports success only when all of that is there. */
    method CreateRolesAndGroups(o: string, p: string, groups: Groups)
      returns (ok: bool, ghost rounds: nat, ghost created: bool)
      requires Sound(realm.items)
      modifies realm
      ensures Adds(old(realm.items), realm.items, ItemsOf(groups, o, p), ok)
      ensures ok ==> Provided(realm.items, groups, o, p) && realm.refused == old(realm.refused)
      ensures ok ==> created && rounds <= RETRY_ATTEMPTS + 1 && realm.failedLists == old(realm.failedLists) + rounds - 1
      ensures !ok && created ==> rounds == 11 && realm.failedLists == old(realm.failedLists) + 11
      ensures !ok && !created ==> rounds <= RETRY_ATTEMPTS + 1 && realm.faults - old(realm.faults) >= rounds
      ensures !ok ==> realm.faults > old(realm.faults)
      ensures realm.failedLists >= old(realm.failedLists) && realm.faults >= old(realm.faults)
      ensures rounds <= 1 + realm.failedLists - old(realm.failedLists)
      ensures realm.reliable || realm.faults == old(realm.faults) ==> ok && rounds == 1
    {
      rounds, created := 0, false;
      var down := realm.Reach();
      if down { return false, rounds, created; }
      var count := 0;
      while true
        invariant 0 <= count == rounds <= RETRY_ATTEMPTS && (realm.reliable ==> count == 0)
        invariant realm.failedLists == old(realm.failedLists) + rounds
        invariant realm.faults >= old(realm.faults) + rounds && realm.refused == old(realm.refused)
        invariant Sound(realm.items) && old(realm.items) <= realm.items <= old(realm.items) + ItemsOf(groups, o, p)
        decreases RETRY_ATTEMPTS - count
      {
        rounds := rounds + 1;
        ok := CreateOnce(o, p, groups);
        created := ok;
        if !ok { return; }
        ok := CheckRolesAndGroupsCreated(o, p, groups);
        if ok {
          AllIsProvided(realm.items, groups, o, p);
          return;
        }
        count := count + 1;
        if count > 10 { return; }
      }
    }

    /** One round. When it succeeds everything is there: a creation that was answered but not done, or
        an error misread as a conflict, makes the look-up of the group or of its roles fail. */
    method CreateOnce(o: string, p: string, groups: Groups) returns (ok: bool)
      requires Sound(realm.items)
      modifies realm
      ensures realm.failedLists >= old(realm.failedLists) && realm.faults >= old(realm.faults)
      ensures Adds(old(realm.items), realm.items, ItemsOf(groups, o, p), ok)
      ensures ok ==> realm.failedLists == old(realm.failedLists) && realm.refused == old(realm.refused)
      ensures realm.reliable || realm.faults == old(realm.faults) ==> ok
    {
      var todo := groups.Keys;
      while todo != {}
        invariant todo <= groups.Keys && realm.failedLists == old(realm.failedLists)
        invariant realm.faults >= old(realm.faults) && realm.refused == old(realm.refused)
        invariant Sound(realm.items) && old(realm.items) <= realm.items <= old(realm.items) + ItemsOf(groups, o, p)
        invariant forall g :: g in groups && g !in todo ==> ItemsFor(g, groups[g], o, p) <= realm.items
        decreases |todo|
      {
        var g :| g in todo;
        todo := todo - {g};
        ItemsForAreItems(groups, g, o, p);
        ok := CreateGroupWithRoles(g, groups[g], o, p);
        if !ok { return; }
      }
      ItemsAreItemsFor(groups, o, p, realm.items);
      ok := true;
    }

    method CreateGroupWithRoles(g: string, roles: seq<string>, o: string, p: string) returns (ok: bool)
      requires Sound(realm.items)
      modifies realm
      ensures realm.failedLists >= old(realm.failedLists) && realm.faults >= old(realm.faults)
      ensures Adds(old(realm.items), realm.items, ItemsFor(g, roles, o, p), ok)
      ensures ok ==> realm.failedLists == old(realm.failedLists) && realm.refused == old(realm.refused)
      ensures realm.reliable || realm.faults == old(realm.faults) ==> ok
    {
      var groupName := ReplaceAll(g, "<org-id>", o);
      groupName := ReplaceAll(groupName, "<project-id>", p);
      var err := realm.Create("group", Group(groupName));
      if err.Some? && !IsErrorForAlreadyExists(err.value) { return false; }
      var names: seq<string> := [];
      ghost var all := ItemsFor(g, roles, o, p);
      for i := 0 to |roles|
        invariant Sound(realm.items) && old(realm.items) <= realm.items <= old(realm.items) + all
        invariant realm.failedLists == old(realm.failedLists) && realm.faults >= old(realm.faults)
        invariant realm.refused == old(realm.refused) && (realm.reliable ==> realm.faults == old(realm.faults))
        invariant |names| == i && forall j :: 0 <= j < i ==> names[j] == Expand(roles[j], o, p)
        invariant realm.faults == old(realm.faults) ==>
                    Group(groupName) in realm.items && forall n :: n in names ==> Role(n) in realm.items
      {
        var name := ReplaceAll(roles[i], "<org-id>", o);
        name := ReplaceAll(name, "<project-id>", p);
        assert name == Expand(roles[i], o, p) && roles[i] in roles;
        err := realm.Create("role", Role(name));
        if err.Some? && !IsErrorForAlreadyExists(err.value) { return false; }
        names := names + [name];
      }
      NamesAreExpansions(roles, names, o, p);
      ok := AddRolesToGroup(groupName, names);
    }

    method AddRolesToGroup(g: string, names: seq<string>) returns (ok: bool)
      requires Sound(realm.items)
      modifies realm
      ensures realm.failedLists >= old(realm.failedLists) && realm.faults >= old(realm.faults)
      ensures Sound(realm.items)
      ensures old(realm.items) <= realm.items <= old(realm.items) + set n | n in names :: Grant(g, n)
      ensures ok ==>
                && Group(g) in realm.items
                && forall n :: n in names ==> Role(n) in realm.items && Grant(g, n) in realm.items
      ensures ok ==> realm.failedLists == old(realm.failedLists)
      ensures realm.refused == old(realm.refused)
      ensures (&& (realm.reliable || realm.faults == old(realm.faults)) && Group(g) in old(realm.items)
               && forall n :: n in names ==> Role(n) in old(realm.items)) ==> ok
    {
      var found := GetGroupByName(g);
      if !found { return false; }
      var roles := GetRolesByNames(names);
      if roles.None? { return false; }
      ok := realm.AddRealmRoleToGroup(g, roles.value);
    }

    method GetGroupByName(g: string) returns (found: bool)
      modifies realm`failedLists, realm`faults
      ensures realm.failedLists >= old(realm.failedLists) && realm.faults >= old(realm.faults)
      ensures found ==> Group(g) in realm.items
      ensures found ==> realm.failedLists == old(realm.failedLists)
      ensures (realm.reliable || realm.faults == old(realm.faults)) && Group(g) in realm.items ==> found
    {
      var groups := realm.GetGroups();
      if groups.None? { return false; }
      found := false;
      for i := 0 to |groups.value|
        invariant found <==> g in groups.value[..i]
      {
        if groups.value[i] == g { return true; }
      }
      assert groups.value[..|groups.value|] == groups.value;
    }

    /** The roles of the given names in that order, or nothing if one does not exist. */
    method GetRolesByNames(names: seq<string>) returns (r: Option<seq<string>>)
      modifies realm`failedLists, realm`faults
      ensures realm.failedLists >= old(realm.failedLists) && realm.faults >= old(realm.faults)
      ensures r.Some? ==> r.value == names && forall n :: n in names ==> Role(n) in realm.items
      ensures r.Some? ==> realm.failedLists == old(realm.failedLists)
      ensures (realm.reliable || realm.faults == old(realm.faults))
          && (forall n :: n in names ==> Role(n) in realm.items)
          ==> r.Some?
    {
      var roles := realm.GetRoles();
      if roles.None? { return None; }
      var toAdd: seq<string> := [];
      for i := 0 to |names|
        invariant toAdd == names[..i] && forall n :: n in toAdd ==> n in roles.value
      {
        var roleExists := false;
        for j := 0 to |roles.value|
          invariant roleExists <==> names[i] in roles.value[..j]
          invariant toAdd == if roleExists then names[..i + 1] else names[..i]
        {
          if roles.value[j] == names[i] {
            toAdd := toAdd + [roles.value[j]];
            roleExists := true;
            break;
          }
        }
        assert roles.value[..|roles.value|] == roles.value;
        if !roleExists { return None; }
      }
      assert names[..|names|] == names;
      return Some(toAdd);
    }

    /** Whether the lists of groups and roles contain everything the templates expand to. */
    method CheckRolesAndGroupsCreated(o: string, p: string, groups: Groups) returns (ok: bool)
      modifies realm`failedLists, realm`faults
      ensures realm.failedLists >= old(realm.failedLists) && realm.faults >= old(realm.faults)
      ensures !ok && ItemsOf(groups, o, p) <= realm.items ==> realm.failedLists == old(realm.failedLists) + 1
      ensures ok ==> realm.failedLists == old(realm.failedLists)
      ensures realm.faults - old(realm.faults) == realm.failedLists - old(realm.failedLists)
      ensures ok ==> forall i :: i in ItemsOf(groups, o, p) && !i.Grant? ==> i in realm.items
      ensures (realm.reliable || realm.faults == old(realm.faults)) && ItemsOf(groups, o, p) <= realm.items ==> ok
    {
      var existingGroups := realm.GetGroups();
      if existingGroups.None? { return false; }
      var existingRoles := realm.GetRoles();
      if existingRoles.None? { return false; }
      var todo := groups.Keys;
      while todo != {}
        invariant todo <= groups.Keys && realm.failedLists == old(realm.failedLists)
            && realm.faults == old(realm.faults)
        invariant forall g, i :: g in groups && g !in todo && i in ItemsFor(g, groups[g], o, p) && !i.Grant? ==>
                                   i in realm.items
        decreases |todo|
      {
        var g :| g in todo;
        todo := todo - {g};
        ItemsForAreItems(groups, g, o, p);
        ok := CheckGroup(g, groups[g], o, p, existingGroups.value, existingRoles.value);
        if !ok { return; }
      }
      ok := true;
    }

    method CheckGroup(g: string, roles: seq<string>, o: string, p: string, existingGroups: seq<string>,
          existingRoles: seq<string>)
      returns (ok: bool)
      requires forall n :: n in existingGroups <==> Group(n) in realm.items
      requires forall n :: n in existingRoles <==> Role(n) in realm.items
      ensures ok <==> forall i :: i in ItemsFor(g, roles, o, p) && !i.Grant? ==> i in realm.items
    {
      var groupName := ReplaceAll(g, "<org-id>", o);
      groupName := ReplaceAll(groupName, "<project-id>", p);
      assert Group(groupName) in ItemsFor(g, roles, o, p);
      if groupName !in existingGroups { return false; }
      for j := 0 to |roles|
        invariant forall r :: r in roles[..j] ==> Role(Expand(r, o, p)) in realm.items
      {
        var name := ReplaceAll(roles[j], "<org-id>", o);
        name := ReplaceAll(name, "<project-id>", p);
        assert name == Expand(roles[j], o, p) && roles[j] in roles;
        assert Role(name) in ItemsFor(g, roles, o, p);
        if name !in existingRoles { return false; }
      }
      assert roles[..|roles|] == roles;
      ok := true;
    }

    /** Deletes every role and every group whose name contains the id, and with them their grants. */
    method DeleteRolesAndGroups(id: string) returns (ok: bool)
      requires Sound(realm.items)
      modifies realm
      ensures Removes(old(realm.items), realm.items, id, ok)
      ensures realm.reliable || realm.faults == old(realm.faults) ==> ok
    {
      var down := realm.Reach();
      if down { return false; }
      var roles := realm.GetRoles();
      if roles.None? { return false; }
      ok := DeleteAll(id, set n | n in roles.value && Contains(n, id) :: Role(n));
      if !ok { return; }
      var groups := realm.GetGroups();
      if groups.None? { return false; }
      ok := DeleteAll(id, set n | n in groups.value && Contains(n, id) :: Group(n));
    }

    /** The loop over listed roles or groups, stopping at the first error. */
    method DeleteAll(id: string, doomed: set<Item>) returns (ok: bool)
      requires Sound(realm.items) && forall i :: i in doomed ==> i in realm.items && !i.Grant? && MentionsId(i, id)
      modifies realm
      ensures Sound(realm.items) && Without(old(realm.items), id) <= realm.items <= old(realm.items)
      ensures ok ==> doomed !! realm.items
      ensures realm.faults >= old(realm.faults) && (realm.reliable || realm.faults == old(realm.faults) ==> ok)
    {
      var todo := doomed;
      while todo != {}
        invariant todo <= doomed && todo <= realm.items && (doomed - todo) !! realm.items
        invariant realm.faults >= old(realm.faults)
        invariant Sound(realm.items) && Without(old(realm.items), id) <= realm.items <= old(realm.items)
        decreases |todo|
      {
        var i :| i in todo;
        ok := realm.Delete(i);
        if !ok { return; }
        todo := todo - {i};
      }
      ok := true;
    }
  }

  lemma NamesAreExpansions(roles: seq<string>, names: seq<string>, o: string, p: string)
    requires |names| == |roles| && forall j :: 0 <= j < |roles| ==> names[j] == Expand(roles[j], o, p)
    ensures forall n :: n in names <==> exists r :: r in roles && n == Expand(r, o, p)
  {
    forall n | exists r :: r in roles && n == Expand(r, o, p) ensures n in names {
      var r :| r in roles && n == Expand(r, o, p);
      var j :| 0 <= j < |roles| && roles[j] == r;
      assert names[j] == n;
    }
  }

  /** A creation adds nothing but the wanted items, and when it reports success all of them are there. */
  ghost predicate Adds(before: set<Item>, after: set<Item>, wanted: set<Item>, ok: bool) {
    Sound(after) && before <= after <= before + wanted && (ok ==> after == before + wanted)
  }

  /** A deletion removes nothing but what mentions the id, and when it reports success all of that. */
  ghost predicate Removes(before: set<Item>, after: set<Item>, id: string, ok: bool) {
    Sound(after) && Without(before, id) <= after <= before && (ok ==> after == Without(before, id))
  }
}
