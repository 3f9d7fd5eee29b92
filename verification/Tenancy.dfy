/** The tables of the tenancy manager and the events it records about them.

    A row of the database is a value and a table is a map keyed by primary key, except for the
    event table, which is a sequence in ascending order of its serial id. */
module Tenancy {

  datatype Option<+T> = None | Some(value: T)

  /** The canonical text form of a UUID; see module Uuids. */
  type Uuid = string

  datatype Kind = OrgKind | ProjectKind

  datatype Resource = Resource(kind: Kind, id: Uuid)

  datatype Change = Created | Deleted

  /** A row of the event table, or an event synthesized for replay (whose serial id is 0). */
  datatype Event = Event(id: nat, change: Change, kind: Kind, resource: Uuid, name: string,
                         orgId: Option<Uuid>, orgName: Option<string>, folderId: Option<Uuid>, at: int)
  {
    function Subject(): Resource { Resource(kind, resource) }
  }

  datatype Org = Org(name: string, description: string, deleted: bool)
  datatype Folder = Folder(name: string, org: Uuid)
  datatype Project = Project(name: string, description: string, folder: Uuid, deleted: bool)

  datatype Status = InProgress | Completed | Failed
  datatype StatusKey = StatusKey(controller: string, kind: Kind, id: Uuid)
  datatype StatusRow = StatusRow(status: Status, message: string)

  datatype Db = Db(orgs: map<Uuid, Org>, folders: map<Uuid, Folder>, projects: map<Uuid, Project>,
                   statuses: map<StatusKey, StatusRow>, events: seq<Event>)

  /** The controllers registered for each kind of resource. */
  datatype Config = Config(orgControllers: seq<string>, projectControllers: seq<string>)
  {
    function For(kind: Kind): seq<string> {
      if kind.OrgKind? then orgControllers else projectControllers
    }
  }

  /** `order` lists the elements of `s`, each once, in whatever order a query returned them. */
  ghost predicate Lists<T(!new)>(order: seq<T>, s: set<T>) {
    && (forall x :: x in order <==> x in s)
    && (forall i, j :: 0 <= i < j < |order| ==> order[i] != order[j])
  }
}
