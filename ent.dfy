/**
 * The entity store the GraphQL resolvers write through: Target, Tag, Job,
 * Task and Credential records kept in maps from id to record, with every
 * many-to-many or one-to-many edge held as a set of ids on the record that
 * owns it. `Client` is the mutable store; `Store` is its value at one
 * instant, and `Consistent` is the referential integrity the store keeps.
 */
module Ent {
  import opened Wrappers

  type Id = int

  datatype Target = Target(
    name: string,
    primaryIP: string,
    hostname: Option<string>,
    machineUUID: Option<string>,
    primaryMAC: Option<string>,
    publicIP: Option<string>,
    tags: set<Id>,
    tasks: set<Id>,
    credentials: set<Id>)

  datatype Tag = Tag(name: string)

  /** A job; `prev` is the optional link to the job it follows. */
  datatype Job = Job(name: string, content: string, creationTime: int, tags: set<Id>, prev: Option<Id>)

  /** A task; a freshly queued task has no claim time and no output. */
  datatype Task = Task(
    content: string,
    queueTime: int,
    claimTime: Option<int>,
    job: Id,
    tags: set<Id>,
    output: Option<string>)

  datatype Credential = Credential(principal: string, secret: string, fails: int)

  /** Errors a store write can report. */
  datatype StoreError =
    | NotFound          // the updated or deleted row does not exist
    | ConstraintError   // an edge names a missing row, or breaks a unique edge
    | Conflict          // a unique field (a tag's name) is already taken
    | Unavailable       // the store itself failed

  /** The contents of the store at one instant. */
  datatype Store = Store(
    targets: map<Id, Target>,
    tags: map<Id, Tag>,
    jobs: map<Id, Job>,
    tasks: map<Id, Task>,
    credentials: map<Id, Credential>,
    nextId: Id)

  /** Every id in use is positive and below the next id to be handed out. */
  ghost predicate IdsBelow(s: Store)
  {
    && s.nextId >= 1
    && (forall id :: id in s.targets ==> 1 <= id < s.nextId)
    && (forall id :: id in s.tags ==> 1 <= id < s.nextId)
    && (forall id :: id in s.jobs ==> 1 <= id < s.nextId)
    && (forall id :: id in s.tasks ==> 1 <= id < s.nextId)
    && (forall id :: id in s.credentials ==> 1 <= id < s.nextId)
  }

  /** Every edge points at a row that exists. */
  ghost predicate EdgesResolve(s: Store)
  {
    && (forall id :: id in s.targets ==>
          && s.targets[id].tags <= s.tags.Keys
          && s.targets[id].tasks <= s.tasks.Keys
          && s.targets[id].credentials <= s.credentials.Keys)
    && (forall id :: id in s.jobs ==>
          && s.jobs[id].tags <= s.tags.Keys
          && (s.jobs[id].prev.Some? ==> s.jobs[id].prev.value in s.jobs))
    && (forall id :: id in s.tasks ==>
          && s.tasks[id].job in s.jobs
          && s.tasks[id].tags <= s.tags.Keys)
  }

  /** Tag names are unique. */
  ghost predicate UniqueTagNames(tags: map<Id, Tag>)
  {
    forall a, b :: a in tags && b in tags && tags[a].name == tags[b].name ==> a == b
  }

  /** The prev/next edge is one-to-one: no two jobs follow the same job. */
  ghost predicate PrevLinksUnique(jobs: map<Id, Job>)
  {
    forall a, b :: a in jobs && b in jobs && a != b && jobs[a].prev.Some? ==> jobs[a].prev != jobs[b].prev
  }

  /** A task belongs to at most one target. */
  ghost predicate TaskOwnersDisjoint(targets: map<Id, Target>)
  {
    forall a, b :: a in targets && b in targets && a != b ==> targets[a].tasks !! targets[b].tasks
  }

  ghost predicate Consistent(s: Store)
  {
    && IdsBelow(s)
    && EdgesResolve(s)
    && UniqueTagNames(s.tags)
    && PrevLinksUnique(s.jobs)
    && TaskOwnersDisjoint(s.targets)
  }

  /** The mutable store the resolvers are handed. */
  class Client {
    var targets: map<Id, Target>
    var tags: map<Id, Tag>
    var jobs: map<Id, Job>
    var tasks: map<Id, Task>
    var credentials: map<Id, Credential>
    var nextId: Id

    function State(): Store
      reads this
    {
      Store(targets, tags, jobs, tasks, credentials, nextId)
    }

    ghost predicate Valid()
      reads this
    {
      Consistent(State())
    }

    /** An empty store. */
    constructor ()
      ensures Valid()
      ensures State() == Store(map[], map[], map[], map[], map[], 1)
    {
      targets, tags, jobs, tasks, credentials := map[], map[], map[], map[], map[];
      nextId := 1;
    }

    /** Hands out a fresh id: one no row of any kind uses yet. */
    method NewId() returns (id: Id)
      requires Valid()
      modifies this`nextId
      ensures Valid()
      ensures id == old(nextId) && nextId == id + 1
      ensures id !in targets && id !in tags && id !in jobs && id !in tasks && id !in credentials
    {
      id := nextId;
      nextId := nextId + 1;
    }
  }
}
