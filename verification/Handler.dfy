/** What the controller does with a tenancy event. */
module Handlers {
  import opened Tenancy
  import opened Keycloak

  /** An event as it arrives. */
  datatype Incoming = Incoming(eventType: string, resourceType: string, resourceId: Uuid, orgId: Option<Uuid>)

  const ORG := "org"
  const PROJECT := "project"
  const CREATED := "created"
  const DELETED := "deleted"

  function Wire(e: Event): Incoming {
    Incoming(if e.change.Created? then "created" else "deleted",
             if e.kind.OrgKind? then "org" else "project", e.resource, e.orgId)
  }

  /** The group templates for orgs and for projects. */
  datatype Blueprint = Blueprint(org: Groups, project: Groups)

  /** What a created event asks for. */
  function Wanted(b: Blueprint, e: Event): set<Item> {
    if e.kind.OrgKind? then ItemsOf(b.org, e.resource, "")
    else ItemsOf(b.project, if e.orgId.Some? then e.orgId.value else "", e.resource)
  }

  /** The effect of an event on the realm, in part if it ends with an error. */
  ghost predicate Handles(b: Blueprint, before: set<Item>, after: set<Item>, e: Event, ok: bool) {
    if e.change.Created? then Adds(before, after, Wanted(b, e), ok) else Removes(before, after, e.resource, ok)
  }

  method HandleEvent(client: Client, event: Incoming) returns (ok: bool)
    requires Sound(client.realm.items)
    modifies client.realm
    ensures forall e :: Wire(e) == event ==>
              Handles(Blueprint(client.orgGroups, client.projectGroups), old(client.realm.items), client.realm.items,
                  e, ok)
    ensures event.resourceType !in {ORG, PROJECT} || event.eventType !in {CREATED, DELETED} ==>
              ok && client.realm.items == old(client.realm.items)
    ensures var o := event.resourceId;
            event.resourceType == "org" && event.eventType == "created" ==>
              Adds(old(client.realm.items), client.realm.items, ItemsOf(client.orgGroups, o, ""), ok)
    ensures var o := if event.orgId.Some? then event.orgId.value else "";
            event.resourceType == "project" && event.eventType == "created" ==>
              Adds(old(client.realm.items), client.realm.items, ItemsOf(client.projectGroups, o, event.resourceId), ok)
    ensures event.resourceType in {"org", "project"} && event.eventType == "deleted" ==>
              Removes(old(client.realm.items), client.realm.items, event.resourceId, ok)
    ensures client.realm.reliable || client.realm.faults == old(client.realm.faults) ==> ok
  {
    if event.resourceType == "org" && event.eventType == "created" {
      ok := client.CreateOrg(event.resourceId);
    } else if event.resourceType == "org" && event.eventType == "deleted" {
      ok := client.DeleteOrg(event.resourceId);
    } else if event.resourceType == "project" && event.eventType == "created" {
      var o := "";
      if event.orgId.Some? { o := event.orgId.value; }
      ok := client.CreateProject(o, event.resourceId);
    } else if event.resourceType == "project" && event.eventType == "deleted" {
      ok := client.DeleteProject(event.resourceId);
    } else {
      ok := true;
    }
  }

  /** Attempts that failed part-way make no difference to the one that succeeds, and handling the event
      again after that changes nothing. */
  lemma RetriesAddUp(b: Blueprint, before: set<Item>, tried: set<Item>, after: set<Item>, e: Event)
    requires Handles(b, before, tried, e, false) && Handles(b, tried, after, e, true)
    ensures Handles(b, before, after, e, true)
    ensures forall again, ok :: Handles(b, after, again, e, ok) ==> again == after
  {
    if e.change.Deleted? {
      assert Without(tried, e.resource) == Without(before, e.resource);
      assert Without(after, e.resource) == after;
    }
  }
}
