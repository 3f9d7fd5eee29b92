/** Role strings, the orgs they name, and the authorization decisions made from them. The parser of UUIDs
    is a parameter: it accepts at least the canonical text form and answers in it. */
module Roles {
  import opened Tenancy
  import opened Uuids

  ghost predicate ParsesUuids(parse: string -> Option<Uuid>) {
    && (forall s :: parse(s).Some? ==> IsUuid(parse(s).value))
    && (forall u :: IsUuid(u) ==> parse(u) == Some(u))
  }

  // --- The two forms of a role that names an org ---

  ghost predicate IdText(s: string) { s != "" && forall i :: 0 <= i < |s| ==> IsIdChar(s[i]) }

  /** ^([a-f0-9-]+)_project-(read|write|delete)-role$ */
  ghost predicate IsProjectRole(role: string, org: string, verb: string) {
    IdText(org) && verb in ["read", "write", "delete"] && role == org + ("_project-" + verb + "-role")
  }

  /** ^([a-f0-9-]+)_([a-f0-9-]+)_(member-role|m)$ */
  ghost predicate IsMemberRole(role: string, org: string, project: string, suffix: string) {
    IdText(org) && IdText(project) && suffix in ["member-role", "m"] && role == org + ("_" + (project + ("_" + suffix)))
  }

  /** The longest beginning made of id characters. */
  function Head(s: string): string {
    if s == "" || !IsIdChar(s[0]) then "" else [s[0]] + Head(s[1..])
  }

  lemma {:induction false} HeadIs(s: string, h: string, rest: string)
    requires s == h + rest && (forall i :: 0 <= i < |h| ==> IsIdChar(h[i])) && (rest != "" ==> !IsIdChar(rest[0]))
    ensures Head(s) == h && |Head(s)| <= |s| && s[|Head(s)|..] == rest
    decreases |h|
  {
    if h == "" {
      assert s == rest;
    } else {
      assert s[1..] == h[1..] + rest;
      HeadIs(s[1..], h[1..], rest);
    }
  }

  lemma {:induction false} HeadSplits(s: string)
    ensures |Head(s)| <= |s| && s == Head(s) + s[|Head(s)|..]
    ensures forall i :: 0 <= i < |Head(s)| ==> IsIdChar(Head(s)[i])
    ensures s[|Head(s)|..] != "" ==> !IsIdChar(s[|Head(s)|..][0])
    decreases |s|
  {
    if s != "" && IsIdChar(s[0]) {
      HeadSplits(s[1..]);
      assert s[|Head(s)|..] == s[1..][|Head(s[1..])|..];
    }
  }

  function Tail(s: string): string {
    HeadSplits(s);
    s[|Head(s)|..]
  }

  /** The first group of the project pattern, if it matches. */
  function MatchProjectRole(role: string): Option<string> {
    if Head(role) != "" && Tail(role) in ["_project-read-role", "_project-write-role", "_project-delete-role"]
        then Some(Head(role))
    else None
  }

  function MatchMemberRole(role: string): Option<string> {
    var rest := Tail(role);
    if Head(role) != "" && rest != "" && rest[0] == '_' && Head(rest[1..]) != ""
        && Tail(rest[1..]) in ["_member-role", "_m"]
    then Some(Head(role)) else None
  }

  lemma VerbTails(verb: string)
    ensures verb in ["read", "write", "delete"] <==>
              "_project-" + verb + "-role" in ["_project-read-role", "_project-write-role", "_project-delete-role"]
    ensures "_project-" + verb + "-role" != "" && !IsIdChar(("_project-" + verb + "-role")[0])
  {
    var t := "_project-" + verb + "-role";
    assert t[9..|t| - 5] == verb;
    assert "_project-read-role"[9..13] == "read" && "_project-write-role"[9..14] == "write"
        && "_project-delete-role"[9..15] == "delete";
    assert "_project-" + "read" + "-role" == "_project-read-role";
    assert "_project-" + "write" + "-role" == "_project-write-role";
    assert "_project-" + "delete" + "-role" == "_project-delete-role";
  }

  /** A role string has at most one parse as a project role, and the match finds it. */
  lemma ProjectRoleIsMatched(role: string, org: string, verb: string)
    requires IsProjectRole(role, org, verb)
    ensures MatchProjectRole(role) == Some(org) && Tail(role) == "_project-" + verb + "-role"
    ensures MatchMemberRole(role) == None
  {
    VerbTails(verb);
    HeadIs(role, org, "_project-" + verb + "-role");
    var rest := Tail(role);
    assert rest[1..][0] == 'p';
  }

  lemma MemberRoleIsMatched(role: string, org: string, project: string, suffix: string)
    requires IsMemberRole(role, org, project, suffix)
    ensures MatchMemberRole(role) == Some(org) && Tail(role)[1..] == project + ("_" + suffix)
    ensures Head(Tail(role)[1..]) == project && Tail(Tail(role)[1..]) == "_" + suffix
  {
    var rest := "_" + (project + ("_" + suffix));
    HeadIs(role, org, rest);
    assert rest[1..] == project + ("_" + suffix);
    HeadIs(rest[1..], project, "_" + suffix);
    assert "_" + "member-role" == "_member-role" && "_" + "m" == "_m";
  }

  lemma MatchedIsProjectRole(role: string)
    requires MatchProjectRole(role).Some?
    ensures exists verb :: IsProjectRole(role, MatchProjectRole(role).value, verb)
  {
    HeadSplits(role);
    var t, verb := Tail(role), Tail(role)[9..|Tail(role)| - 5];
    assert t == "_project-" + verb + "-role";
    VerbTails(verb);
    assert IsProjectRole(role, Head(role), verb);
  }

  lemma MatchedIsMemberRole(role: string)
    requires MatchMemberRole(role).Some?
    ensures exists project, suffix :: IsMemberRole(role, MatchMemberRole(role).value, project, suffix)
  {
    HeadSplits(role);
    var rest := Tail(role);
    HeadSplits(rest[1..]);
    var project, suffix := Head(rest[1..]), Tail(rest[1..])[1..];
    assert rest == "_" + rest[1..] && Tail(rest[1..]) == "_" + suffix;
    assert IsMemberRole(role, Head(role), project, suffix);
  }

  /** The matches are what the patterns say, and a role string has at most one parse: as a project role
      or as a member role, but not both, and into the same parts each time. */
  lemma ParsesAreUnique(role: string, org: string, verb: string, org': string, verb': string, project: string,
        suffix: string, project': string, suffix': string)
    ensures MatchProjectRole(role) == Some(org) <==> exists v :: IsProjectRole(role, org, v)
    ensures MatchMemberRole(role) == Some(org) <==> exists q, x :: IsMemberRole(role, org, q, x)
    ensures IsProjectRole(role, org, verb) && IsProjectRole(role, org', verb') ==> org == org' && verb == verb'
    ensures IsMemberRole(role, org, project, suffix) && IsMemberRole(role, org', project', suffix') ==>
              org == org' && project == project' && suffix == suffix'
    ensures !(IsProjectRole(role, org, verb) && IsMemberRole(role, org', project', suffix'))
  {
    if MatchProjectRole(role) == Some(org) { MatchedIsProjectRole(role); }
    if MatchMemberRole(role) == Some(org) { MatchedIsMemberRole(role); }
    forall o, v | IsProjectRole(role, o, v)
      ensures MatchProjectRole(role) == Some(o) && MatchMemberRole(role) == None && v == Tail(role)[9..|Tail(role)| - 5]
    {
      ProjectRoleIsMatched(role, o, v);
    }
    forall o, q, x | IsMemberRole(role, o, q, x)
      ensures MatchMemberRole(role) == Some(o) && q == Head(Tail(role)[1..]) && x == Tail(Tail(role)[1..])[1..]
    {
      MemberRoleIsMatched(role, o, q, x);
    }
  }

  // --- The orgs a caller's roles name ---

  /** The org of a role, where the text in its place is a UUID; the project pattern is tried first. */
  function RoleOrg(role: string, parse: string -> Option<Uuid>): Option<Uuid> {
    match MatchProjectRole(role)
    case Some(text) => parse(text)
    case None =>
      match MatchMemberRole(role)
      case Some(text) => parse(text)
      case None => None
  }

  /** `ids` are the orgs the roles name, without repeats, in the order in which they first occur, which
      is at the positions `at`. */
  ghost predicate FirstOccurrences(roles: seq<string>, parse: string -> Option<Uuid>, ids: seq<Uuid>, at: seq<nat>) {
    && |at| == |ids|
    && (forall k :: 0 <= k < |at| ==> at[k] < |roles| && RoleOrg(roles[at[k]], parse) == Some(ids[k]))
    && (forall k, j :: 0 <= k < |at| && 0 <= j < at[k] ==> RoleOrg(roles[j], parse) != Some(ids[k]))
    && (forall k, l :: 0 <= k < l < |at| ==> at[k] < at[l])
    && (forall j :: 0 <= j < |roles| && RoleOrg(roles[j], parse).Some? ==> RoleOrg(roles[j], parse).value in ids)
  }

  method ExtractOrgUUIDs(roles: seq<string>, parse: string -> Option<Uuid>)
        returns (result: seq<Uuid>, ghost at: seq<nat>)
    ensures FirstOccurrences(roles, parse, result, at)
    ensures forall u :: u in result <==> Names(roles, parse, u)
    ensures forall k, l :: 0 <= k < l < |result| ==> result[k] != result[l]
  {
    var seen: set<Uuid> := {};
    result, at := [], [];
    for i := 0 to |roles|
      invariant forall u :: u in seen <==> u in result
      invariant FirstOccurrences(roles[..i], parse, result, at)
    {
      assert roles[..i + 1] == roles[..i] + [roles[i]];
      var m := MatchProjectRole(roles[i]);
      if m.None? {
        m := MatchMemberRole(roles[i]);
        if m.None? { continue; }
      }
      var id := parse(m.value);
      assert id == RoleOrg(roles[i], parse);
      if id.None? { continue; }
      if id.value !in seen {
        Discovered(roles, parse, result, at, i);
        seen := seen + {id.value};
        result, at := result + [id.value], at + [i];
      }
    }
    assert roles[..|roles|] == roles;
    forall u ensures u in result <==> Names(roles, parse, u) { ExtractedAreNamed(roles, parse, result, at, u); }
    ExtractedAreNamed(roles, parse, result, at, "");
  }

  lemma Discovered(roles: seq<string>, parse: string -> Option<Uuid>, ids: seq<Uuid>, at: seq<nat>, i: nat)
    requires i < |roles| && FirstOccurrences(roles[..i], parse, ids, at)
    requires RoleOrg(roles[i], parse).Some? && RoleOrg(roles[i], parse).value !in ids
    ensures FirstOccurrences(roles[..i + 1], parse, ids + [RoleOrg(roles[i], parse).value], at + [i])
  {
    var u := RoleOrg(roles[i], parse).value;
    var more, ids', at' := roles[..i + 1], ids + [u], at + [i];
    assert forall j :: 0 <= j < i ==> more[j] == roles[..i][j];
    assert more[i] == roles[i];
    forall k | 0 <= k < |at'| ensures at'[k] < |more| && RoleOrg(more[at'[k]], parse) == Some(ids'[k]) {
      if k < |at| { assert at[k] < i; }
    }
    forall k, j | 0 <= k < |at'| && 0 <= j < at'[k] ensures RoleOrg(more[j], parse) != Some(ids'[k]) {
      if k < |at| { assert at[k] < i; }
    }
  }

  ghost predicate Names(roles: seq<string>, parse: string -> Option<Uuid>, u: Uuid) {
    exists r :: r in roles && RoleOrg(r, parse) == Some(u)
  }

  lemma ExtractedAreNamed(roles: seq<string>, parse: string -> Option<Uuid>, ids: seq<Uuid>, at: seq<nat>, u: Uuid)
    requires FirstOccurrences(roles, parse, ids, at)
    ensures u in ids <==> Names(roles, parse, u)
    ensures forall k, l :: 0 <= k < l < |ids| ==> ids[k] != ids[l]
  {
    if u in ids {
      var k :| 0 <= k < |ids| && ids[k] == u;
      assert roles[at[k]] in roles;
    }
    if Names(roles, parse, u) {
      var r :| r in roles && RoleOrg(r, parse) == Some(u);
      var j :| 0 <= j < |roles| && roles[j] == r;
    }
    forall k, l | 0 <= k < l < |ids| ensures ids[k] != ids[l] {
      assert at[k] < at[l] && RoleOrg(roles[at[k]], parse) == Some(ids[k]);
    }
  }

  // --- The decisions ---

  predicate HasRole(roles: seq<string>, target: string) { target in roles }

  predicate HasOrgScopedRole(roles: seq<string>, ids: seq<Uuid>, suffix: string) {
    exists id :: id in ids && HasRole(roles, id + "_" + suffix)
  }

  predicate HasMemberRole(roles: seq<string>, ids: seq<Uuid>, parse: string -> Option<Uuid>) {
    exists role :: role in roles && MatchMemberRole(role).Some?
      && parse(MatchMemberRole(role).value).Some? && parse(MatchMemberRole(role).value).value in ids
  }

  predicate CheckOrgAuthz(roles: seq<string>, verb: string) {
    match verb
    case "GET" => HasRole(roles, "org-read-role")
    case "PUT" => HasRole(roles, "org-write-role")
    case "DELETE" => HasRole(roles, "org-delete-role")
    case _ => false
  }

  predicate CheckProjectAuthz(roles: seq<string>, ids: seq<Uuid>, verb: string, parse: string -> Option<Uuid>) {
    match verb
    case "GET" =>
      || HasRole(roles, "project-read-role")
      || HasOrgScopedRole(roles, ids, "project-read-role")
      || HasMemberRole(roles, ids, parse)
    case "PUT" => HasRole(roles, "project-write-role") || HasOrgScopedRole(roles, ids, "project-write-role")
    case "DELETE" => HasRole(roles, "project-delete-role") || HasOrgScopedRole(roles, ids, "project-delete-role")
    case _ => false
  }

  predicate HasPrefix(s: string, prefix: string) { prefix <= s }

  predicate Authorized(roles: seq<string>, ids: seq<Uuid>, path: string, verb: string, parse: string -> Option<Uuid>) {
    if HasRole(roles, "admin") then true
    else if HasPrefix(path, "/v1/orgs") then CheckOrgAuthz(roles, verb)
    else HasPrefix(path, "/v1/projects") && CheckProjectAuthz(roles, ids, verb, parse)
  }

  /** The rule: one role by itself allows the request, whatever other roles there are. */
  ghost predicate Grants(role: string, verb: string, parse: string -> Option<Uuid>) {
    match verb
    case "GET" => ScopedOrGlobal(role, "project-read-role") || MemberOfKnownOrg(role, parse)
    case "PUT" => ScopedOrGlobal(role, "project-write-role")
    case "DELETE" => ScopedOrGlobal(role, "project-delete-role")
    case _ => false
  }

  ghost predicate ScopedOrGlobal(role: string, suffix: string) {
    role == suffix || exists u :: IsUuid(u) && role == u + "_" + suffix
  }

  ghost predicate MemberOfKnownOrg(role: string, parse: string -> Option<Uuid>) {
    exists org, project, suffix :: IsMemberRole(role, org, project, suffix) && parse(org).Some?
  }

  lemma CanonicalOrg(u: Uuid, verb: string, parse: string -> Option<Uuid>)
    requires ParsesUuids(parse) && IsUuid(u) && verb in ["read", "write", "delete"]
    ensures RoleOrg(u + "_" + ("project-" + verb + "-role"), parse) == Some(u)
  {
    var role := u + "_" + ("project-" + verb + "-role");
    assert role == u + ("_project-" + verb + "-role");
    assert IsProjectRole(role, u, verb);
    ProjectRoleIsMatched(role, u, verb);
  }

  lemma ScopedRoleNamesItsOrg(roles: seq<string>, ids: seq<Uuid>, at: seq<nat>, verb: string,
        parse: string -> Option<Uuid>)
    requires ParsesUuids(parse) && FirstOccurrences(roles, parse, ids, at) && verb in ["read", "write", "delete"]
    ensures var suffix := "project-" + verb + "-role";
            HasRole(roles, suffix) || HasOrgScopedRole(roles, ids, suffix) <==>
                exists r :: r in roles && ScopedOrGlobal(r, suffix)
  {
    var suffix := "project-" + verb + "-role";
    forall u ensures u in ids <==> Names(roles, parse, u) { ExtractedAreNamed(roles, parse, ids, at, u); }
    if HasRole(roles, suffix) {
      assert ScopedOrGlobal(suffix, suffix);
    }
    if HasOrgScopedRole(roles, ids, suffix) {
      var u :| u in ids && HasRole(roles, u + "_" + suffix);
      assert IsUuid(u);
      assert ScopedOrGlobal(u + "_" + suffix, suffix);
    }
    if exists r :: r in roles && ScopedOrGlobal(r, suffix) {
      var r :| r in roles && ScopedOrGlobal(r, suffix);
      if r != suffix {
        var u :| IsUuid(u) && r == u + "_" + suffix;
        CanonicalOrg(u, verb, parse);
        assert Names(roles, parse, u);
      }
    }
  }

  lemma MemberRoleNamesItsOrg(roles: seq<string>, ids: seq<Uuid>, at: seq<nat>, parse: string -> Option<Uuid>)
    requires FirstOccurrences(roles, parse, ids, at)
    ensures HasMemberRole(roles, ids, parse) <==> exists r :: r in roles && MemberOfKnownOrg(r, parse)
  {
    if HasMemberRole(roles, ids, parse) {
      var r :| r in roles && MatchMemberRole(r).Some? && parse(MatchMemberRole(r).value).Some?;
      MatchedIsMemberRole(r);
      assert MemberOfKnownOrg(r, parse);
    }
    if exists r :: r in roles && MemberOfKnownOrg(r, parse) {
      var r :| r in roles && MemberOfKnownOrg(r, parse);
      var org, project, suffix :| IsMemberRole(r, org, project, suffix) && parse(org).Some?;
      MemberRoleIsMatched(r, org, project, suffix);
      if MatchProjectRole(r).Some? {
        MatchedIsProjectRole(r);
        var v :| IsProjectRole(r, MatchProjectRole(r).value, v);
        ProjectRoleIsMatched(r, MatchProjectRole(r).value, v);
        assert false;
      }
      assert Names(roles, parse, parse(org).value);
      ExtractedAreNamed(roles, parse, ids, at, parse(org).value);
    }
  }

  /** The decision over the extracted orgs is the rule: some role grants the request. The list of orgs,
      being taken from the same roles, makes no difference. */
  lemma DecisionIsTheRule(roles: seq<string>, ids: seq<Uuid>, at: seq<nat>, verb: string, parse: string -> Option<Uuid>)
    requires ParsesUuids(parse) && FirstOccurrences(roles, parse, ids, at)
    ensures CheckProjectAuthz(roles, ids, verb, parse) <==> exists r :: r in roles && Grants(r, verb, parse)
  {
    assert "project-" + "read" + "-role" == "project-read-role";
    assert "project-" + "write" + "-role" == "project-write-role";
    assert "project-" + "delete" + "-role" == "project-delete-role";
    ScopedRoleNamesItsOrg(roles, ids, at, "read", parse);
    ScopedRoleNamesItsOrg(roles, ids, at, "write", parse);
    ScopedRoleNamesItsOrg(roles, ids, at, "delete", parse);
    MemberRoleNamesItsOrg(roles, ids, at, parse);
  }

  /** The rule for the whole decision: what one role by itself allows. The superuser's role allows
      everything, for orgs each verb has its own role, for projects `Grants` decides, and elsewhere nobody
      else is let in. */
  ghost predicate Allows(role: string, path: string, verb: string, parse: string -> Option<Uuid>) {
    || role == "admin"
    || ("/v1/orgs" <= path && verb == "GET" && role == "org-read-role")
    || ("/v1/orgs" <= path && verb == "PUT" && role == "org-write-role")
    || ("/v1/orgs" <= path && verb == "DELETE" && role == "org-delete-role")
    || ("/v1/projects" <= path && Grants(role, verb, parse))
  }

  lemma PathsAreApart(path: string)
    ensures !("/v1/orgs" <= path && "/v1/projects" <= path)
  {
    assert "/v1/orgs" <= path ==> path[4] == 'o';
    assert "/v1/projects" <= path ==> path[4] == 'p';
  }

  /** A request is let in if and only if some role by itself allows it. */
  lemma AuthorizedExactly(roles: seq<string>, ids: seq<Uuid>, at: seq<nat>, path: string, verb: string,
        parse: string -> Option<Uuid>)
    requires ParsesUuids(parse) && FirstOccurrences(roles, parse, ids, at)
    ensures Authorized(roles, ids, path, verb, parse) <==> exists r :: r in roles && Allows(r, path, verb, parse)
  {
    PathsAreApart(path);
    DecisionIsTheRule(roles, ids, at, verb, parse);
    if Authorized(roles, ids, path, verb, parse) {
      if HasRole(roles, "admin") {
        assert Allows("admin", path, verb, parse);
      } else if HasPrefix(path, "/v1/orgs") {
        var r := if verb == "GET" then "org-read-role" else if verb == "PUT" then "org-write-role"
                 else "org-delete-role";
        assert Allows(r, path, verb, parse);
      } else {
        var r :| r in roles && Grants(r, verb, parse);
        assert Allows(r, path, verb, parse);
      }
    }
  }

  /** More roles never turn an allowed request into a refused one. */
  lemma MoreRolesAllowMore(roles: seq<string>, ids: seq<Uuid>, at: seq<nat>, more: seq<string>, ids': seq<Uuid>,
        at': seq<nat>, path: string, verb: string, parse: string -> Option<Uuid>)
    requires ParsesUuids(parse) && FirstOccurrences(roles, parse, ids, at) && FirstOccurrences(more, parse, ids', at')
    requires forall r :: r in roles ==> r in more
    requires Authorized(roles, ids, path, verb, parse)
    ensures Authorized(more, ids', path, verb, parse)
  {
    AuthorizedExactly(roles, ids, at, path, verb, parse);
    AuthorizedExactly(more, ids', at', path, verb, parse);
  }
}
