/**
 * The GraphQL mutation resolvers and the job-chain lookups, written against
 * the entity store of module Ent.
 *
 * A boolean mutation answers with the flag `err != nil` beside the error
 * itself, so it reports `false` when it succeeds; the one exception is a
 * failed credential save in AddCredentialForTarget. The clock reading,
 * failures of the store itself, and the outcome of an AND over no
 * predicates (decided inside the query library) are parameters.
 */
module Resolve {
  import opened Wrappers
  import opened Ent

  /** What a resolver hands back: a value with an optional error, or a panic. */
  datatype Reply<T> = Returned(value: T, err: Option<StoreError>) | Panicked

  /** The reply of a boolean mutation: the flag is whether an error occurred. */
  function Flag(err: Option<StoreError>): (r: Reply<bool>)
    ensures r.Returned? && r.err == err
    ensures r.value <==> err.Some?
  {
    Returned(err.Some?, err)
  }

  /** The reply of a creating mutation: the new id, or -1 with the error. */
  function Created(id: Id, err: Option<StoreError>): (r: Reply<int>)
    ensures r.Returned? && r.err == err
    ensures err.Some? ==> r.value == -1
    ensures err.None? ==> r.value == id
  {
    if err.Some? then Returned(-1, err) else Returned(id, None)
  }

  /** The set of ids in a request's tag list. */
  function TagSet(tags: seq<Id>): (s: set<Id>)
    ensures forall t :: t in s <==> t in tags
  {
    set t | t in tags
  }

  datatype CreateJobRequest = CreateJobRequest(name: string, content: string, tags: seq<Id>, prev: Option<Id>)

  datatype SetTargetFieldsRequest = SetTargetFieldsRequest(
    id: Id,
    name: Option<string>,
    primaryIP: Option<string>,
    hostname: Option<string>,
    machineUUID: Option<string>,
    primaryMAC: Option<string>,
    publicIP: Option<string>)

  // ---------------------------------------------------------------------
  // The target query of CreateJob: an AND of has-tag predicates.
  // ---------------------------------------------------------------------

  /** A target predicate: the target carries the tag with this id. */
  datatype TargetPredicate = HasTagsWith(tag: Id)

  predicate Satisfies(t: Target, p: TargetPredicate)
  {
    p.tag in t.tags
  }

  /**
   * The AND of `preds` on one target. What an AND of no predicates selects
   * is decided inside the query library, so it is the parameter `emptyAnd`.
   */
  predicate AndHolds(preds: seq<TargetPredicate>, t: Target, emptyAnd: bool)
  {
    if preds == [] then emptyAnd else forall i :: 0 <= i < |preds| ==> Satisfies(t, preds[i])
  }

  /** The one has-tag predicate per requested tag id, in order. */
  function PredicatesFor(tags: seq<Id>): (preds: seq<TargetPredicate>)
    ensures |preds| == |tags|
  {
    seq(|tags|, i requires 0 <= i < |tags| => HasTagsWith(tags[i]))
  }

  /** Builds the has-tag predicate list one requested tag at a time. */
  method TagPredicates(tags: seq<Id>) returns (preds: seq<TargetPredicate>)
    ensures |preds| == |tags|
    ensures forall i :: 0 <= i < |tags| ==> preds[i] == HasTagsWith(tags[i])
  {
    preds := [];
    var i := 0;
    while i < |tags|
      invariant 0 <= i <= |tags|
      invariant |preds| == i
      invariant forall k :: 0 <= k < i ==> preds[k] == HasTagsWith(tags[k])
    {
      preds := preds + [HasTagsWith(tags[i])];
      i := i + 1;
    }
  }

  /** The targets the query `Where(And(preds...))` returns. */
  function QueryTargets(targets: map<Id, Target>, preds: seq<TargetPredicate>, emptyAnd: bool): (r: set<Id>)
    ensures r <= targets.Keys
  {
    set id | id in targets && AndHolds(preds, targets[id], emptyAnd)
  }

  /** The targets CreateJob fans a job out to. */
  function MatchingTargets(targets: map<Id, Target>, tags: seq<Id>, emptyAnd: bool): set<Id>
  {
    QueryTargets(targets, PredicatesFor(tags), emptyAnd)
  }

  /**
   * For a non-empty tag list the query is an AND: a target is selected
   * exactly when it carries every requested tag, and a target missing any
   * one of them is left out.
   */
  lemma {:induction false} MatchingIsAnd(targets: map<Id, Target>, tags: seq<Id>, emptyAnd: bool, id: Id)
    requires |tags| > 0
    ensures id in MatchingTargets(targets, tags, emptyAnd)
        <==> id in targets && (forall k :: k in tags ==> k in targets[id].tags)
  {
    var preds := PredicatesFor(tags);
    if id in targets && (forall k :: k in tags ==> k in targets[id].tags) {
      forall i | 0 <= i < |preds| ensures Satisfies(targets[id], preds[i]) {
        assert preds[i] == HasTagsWith(tags[i]);
      }
    }
    if id in MatchingTargets(targets, tags, emptyAnd) {
      forall k | k in tags ensures k in targets[id].tags {
        var i :| 0 <= i < |tags| && tags[i] == k;
        assert Satisfies(targets[id], preds[i]);
      }
    }
  }

  // ---------------------------------------------------------------------
  // CreateJob
  // ---------------------------------------------------------------------

  /**
   * Why saving the new job fails, if it does: the store is down, a
   * requested tag does not exist, or the requested previous job does not
   * exist or already has a successor (the prev/next edge is one-to-one).
   */
  function JobSaveError(s: Store, input: CreateJobRequest, saveFails: bool): Option<StoreError>
  {
    if saveFails then Some(Unavailable)
    else if exists i | 0 <= i < |input.tags| :: input.tags[i] !in s.tags then Some(ConstraintError)
    else if input.prev.Some? && (input.prev.value !in s.jobs || exists j | j in s.jobs :: s.jobs[j].prev == input.prev)
    then Some(ConstraintError)
    else None
  }

  /**
   * `after` is `before` plus one fresh task per key of `taskOf`, all equal
   * to `task`, and distinct keys got distinct tasks.
   */
  ghost predicate TasksAdded(before: map<Id, Task>, after: map<Id, Task>, taskOf: map<Id, Id>, task: Task)
  {
    && (forall k :: k in before ==> k in after && after[k] == before[k])
    && (forall t :: t in taskOf ==> taskOf[t] !in before && taskOf[t] in after && after[taskOf[t]] == task)
    && (forall k :: k in after && k !in before ==> exists t :: t in taskOf && taskOf[t] == k)
    && (forall t, u :: t in taskOf && u in taskOf && t != u ==> taskOf[t] != taskOf[u])
  }

  /** Each target keyed in `taskOf` gained its task; every other target is as it was. */
  ghost predicate TasksAttached(before: map<Id, Target>, after: map<Id, Target>, taskOf: map<Id, Id>)
  {
    && after.Keys == before.Keys
    && (forall t :: t in after ==>
          after[t] == if t in taskOf then before[t].(tasks := before[t].tasks + {taskOf[t]}) else before[t])
  }

  /** Saves a new job under a fresh id (the job creator's Save in CreateJob). */
  method SaveJob(c: Client, job: Job) returns (id: Id)
    requires c.Valid()
    requires job.tags <= c.tags.Keys
    requires job.prev.Some? ==> job.prev.value in c.jobs
    requires forall j :: j in c.jobs ==> c.jobs[j].prev != job.prev || job.prev.None?
    modifies c
    ensures c.Valid()
    ensures id == old(c.nextId) && id !in old(c.jobs)
    ensures c.State() == old(c.State()).(jobs := old(c.jobs)[id := job], nextId := id + 1)
  {
    id := c.NewId();
    c.jobs := c.jobs[id := job];
    assert PrevLinksUnique(c.jobs) by {
      forall a, b | a in c.jobs && b in c.jobs && a != b && c.jobs[a].prev.Some?
        ensures c.jobs[a].prev != c.jobs[b].prev
      {
        if a == id {
          assert b in old(c.jobs);
        } else if b == id {
          assert a in old(c.jobs);
        }
      }
    }
  }

  /**
   * One step of the fan-out: saves `task` under a fresh id and adds it to
   * target `t`'s task set.
   */
  method AddTaskToTarget(c: Client, t: Id, task: Task) returns (taskId: Id)
    requires c.Valid()
    requires t in c.targets && task.job in c.jobs && task.tags <= c.tags.Keys
    modifies c
    ensures c.Valid()
    ensures taskId == old(c.nextId) && taskId !in old(c.tasks)
    ensures c.State() == old(c.State()).(
              tasks := old(c.tasks)[taskId := task],
              targets := old(c.targets)[t := old(c.targets[t]).(tasks := old(c.targets[t].tasks) + {taskId})],
              nextId := taskId + 1)
  {
    taskId := c.NewId();
    c.tasks := c.tasks[taskId := task];
    c.targets := c.targets[t := c.targets[t].(tasks := c.targets[t].tasks + {taskId})];
  }

  /** `TasksAdded` survives adding one more fresh task for one more target. */
  lemma TasksAddedStep(before: map<Id, Task>, mid: map<Id, Task>, taskOf: map<Id, Id>, task: Task, t: Id, id: Id)
    requires TasksAdded(before, mid, taskOf, task)
    requires t !in taskOf && id !in mid
    ensures TasksAdded(before, mid[id := task], taskOf[t := id], task)
  {
    var after, taskOf' := mid[id := task], taskOf[t := id];
    forall k | k in after && k !in before ensures exists u :: u in taskOf' && taskOf'[u] == k {
      if k == id {
        assert taskOf'[t] == k;
      } else {
        var u :| u in taskOf && taskOf[u] == k;
        assert taskOf'[u] == k;
      }
    }
  }

  /** `TasksAttached` survives attaching one more task to one more target. */
  lemma TasksAttachedStep(before: map<Id, Target>, mid: map<Id, Target>, taskOf: map<Id, Id>, t: Id, id: Id)
    requires TasksAttached(before, mid, taskOf)
    requires t !in taskOf && t in mid
    ensures TasksAttached(before, mid[t := mid[t].(tasks := mid[t].tasks + {id})], taskOf[t := id])
  {
  }

  /**
   * The loop of CreateJob: for every matching target, saves a copy of
   * `task` and adds it to that target's task set. `taskOf` records which
   * task each target received.
   */
  method FanOut(c: Client, matched: set<Id>, task: Task) returns (ghost taskOf: map<Id, Id>)
    requires c.Valid()
    requires matched <= c.targets.Keys && task.job in c.jobs && task.tags <= c.tags.Keys
    modifies c
    ensures c.Valid()
    ensures taskOf.Keys == matched
    ensures TasksAdded(old(c.tasks), c.tasks, taskOf, task)
    ensures TasksAttached(old(c.targets), c.targets, taskOf)
    ensures c.jobs == old(c.jobs) && c.tags == old(c.tags) && c.credentials == old(c.credentials)
  {
    taskOf := map[];
    var remaining := matched;
    while exists t :: t in remaining
      invariant c.Valid()
      invariant remaining <= matched
      invariant taskOf.Keys == matched - remaining
      invariant c.jobs == old(c.jobs) && c.tags == old(c.tags) && c.credentials == old(c.credentials)
      invariant TasksAdded(old(c.tasks), c.tasks, taskOf, task)
      invariant TasksAttached(old(c.targets), c.targets, taskOf)
      decreases remaining
    {
      var t :| t in remaining;
      ghost var tasks, targets := c.tasks, c.targets;
      var taskId := AddTaskToTarget(c, t, task);
      TasksAddedStep(old(c.tasks), tasks, taskOf, task, t, taskId);
      TasksAttachedStep(old(c.targets), targets, taskOf, t, taskId);
      taskOf := taskOf[t := taskId];
      remaining := remaining - {t};
    }
    assert remaining == {};
  }

  /**
   * mutationResolver.CreateJob. The target query runs before anything is
   * written, so a failed query leaves the store untouched; a failed job save
   * creates no tasks. Otherwise one task per matching target is created with
   * the job's content and tags and the job's creation time as queue time,
   * and is added to that target's task set. `taskOf` maps each matching
   * target to its task.
   */
  method CreateJob(c: Client, input: CreateJobRequest, now: int, queryFails: bool, saveFails: bool, emptyAnd: bool)
    returns (r: Reply<int>, ghost taskOf: map<Id, Id>)
    requires c.Valid()
    modifies c
    ensures c.Valid()
    ensures queryFails ==> r == Returned(-1, Some(Unavailable)) && c.State() == old(c.State())
    ensures !queryFails && JobSaveError(old(c.State()), input, saveFails).Some? ==>
              r == Returned(-1, JobSaveError(old(c.State()), input, saveFails)) && c.State() == old(c.State())
    ensures !queryFails && JobSaveError(old(c.State()), input, saveFails).None? ==>
              && r == Returned(old(c.nextId), None)
              && old(c.nextId) !in old(c.jobs)
              && c.jobs == old(c.jobs)[r.value := Job(input.name, input.content, now, TagSet(input.tags), input.prev)]
              && taskOf.Keys == MatchingTargets(old(c.targets), input.tags, emptyAnd)
              && TasksAdded(old(c.tasks), c.tasks, taskOf,
                            Task(input.content, now, None, r.value, TagSet(input.tags), None))
              && TasksAttached(old(c.targets), c.targets, taskOf)
              && (forall t :: t in taskOf ==> c.tasks[taskOf[t]].queueTime == c.jobs[r.value].creationTime)
              && c.tags == old(c.tags) && c.credentials == old(c.credentials)
  {
    taskOf := map[];
    var preds := TagPredicates(input.tags);
    if queryFails {
      return Returned(-1, Some(Unavailable)), taskOf;
    }
    assert preds == PredicatesFor(input.tags);
    var matched := QueryTargets(c.targets, preds, emptyAnd);
    var currentTime := now;

    var saveErr := JobSaveError(c.State(), input, saveFails);
    if saveErr.Some? {
      return Returned(-1, saveErr), taskOf;
    }
    var tagSet := TagSet(input.tags);
    var jobId := SaveJob(c, Job(input.name, input.content, currentTime, tagSet, input.prev));

    var task := Task(input.content, currentTime, None, jobId, tagSet, None);
    taskOf := FanOut(c, matched, task);
    r := Returned(jobId, None);
  }

  // ---------------------------------------------------------------------
  // Small mutations
  // ---------------------------------------------------------------------

  /** mutationResolver.CreateTag: tag names are unique. */
  method CreateTag(c: Client, name: string) returns (r: Reply<int>)
    requires c.Valid()
    modifies c
    ensures c.Valid()
    ensures (exists k :: k in old(c.tags) && old(c.tags)[k].name == name) ==>
              r == Returned(-1, Some(Conflict)) && c.State() == old(c.State())
    ensures (forall k :: k in old(c.tags) ==> old(c.tags)[k].name != name) ==>
              && r == Returned(old(c.nextId), None)
              && c.State() == old(c.State()).(tags := old(c.tags)[r.value := Tag(name)], nextId := r.value + 1)
  {
    if exists k | k in c.tags :: c.tags[k].name == name {
      return Created(-1, Some(Conflict));
    }
    var id := c.NewId();
    c.tags := c.tags[id := Tag(name)];
    r := Created(id, None);
  }

  /** mutationResolver.FailCredential: GetX panics on an unknown id; otherwise the count rises by one. */
  method FailCredential(c: Client, id: Id) returns (r: Reply<bool>)
    requires c.Valid()
    modifies c
    ensures c.Valid()
    ensures id !in old(c.credentials) ==> r == Panicked && c.State() == old(c.State())
    ensures id in old(c.credentials) ==>
              && r == Returned(false, None)
              && c.State() == old(c.State()).(credentials := old(c.credentials)[id := old(c.credentials[id]).(fails := old(c.credentials[id].fails) + 1)])
              && c.credentials[id].fails == old(c.credentials[id].fails) + 1
  {
    if id !in c.credentials {
      return Panicked;
    }
    var cred := c.credentials[id];
    c.credentials := c.credentials[id := cred.(fails := cred.fails + 1)];
    r := Flag(None);
  }

  /** mutationResolver.ApplyTagToTask: inserts the tag into the task's tag set. */
  method ApplyTagToTask(c: Client, entId: Id, tagId: Id) returns (r: Reply<bool>)
    requires c.Valid()
    modifies c
    ensures c.Valid()
    ensures entId !in old(c.tasks) ==> r == Returned(true, Some(NotFound)) && c.State() == old(c.State())
    ensures entId in old(c.tasks) && tagId !in old(c.tags) ==>
              r == Returned(true, Some(ConstraintError)) && c.State() == old(c.State())
    ensures entId in old(c.tasks) && tagId in old(c.tags) ==>
              && r == Returned(false, None)
              && c.State() == old(c.State()).(tasks := old(c.tasks)[entId := old(c.tasks[entId]).(tags := old(c.tasks[entId].tags) + {tagId})])
  {
    if entId !in c.tasks {
      return Flag(Some(NotFound));
    }
    if tagId !in c.tags {
      return Flag(Some(ConstraintError));
    }
    c.tasks := c.tasks[entId := c.tasks[entId].(tags := c.tasks[entId].tags + {tagId})];
    r := Flag(None);
  }

  /** mutationResolver.ApplyTagToTarget: inserts the tag into the target's tag set. */
  method ApplyTagToTarget(c: Client, entId: Id, tagId: Id) returns (r: Reply<bool>)
    requires c.Valid()
    modifies c
    ensures c.Valid()
    ensures entId !in old(c.targets) ==> r == Returned(true, Some(NotFound)) && c.State() == old(c.State())
    ensures entId in old(c.targets) && tagId !in old(c.tags) ==>
              r == Returned(true, Some(ConstraintError)) && c.State() == old(c.State())
    ensures entId in old(c.targets) && tagId in old(c.tags) ==>
              && r == Returned(false, None)
              && c.State() == old(c.State()).(targets := old(c.targets)[entId := old(c.targets[entId]).(tags := old(c.targets[entId].tags) + {tagId})])
  {
    if entId !in c.targets {
      return Flag(Some(NotFound));
    }
    if tagId !in c.tags {
      return Flag(Some(ConstraintError));
    }
    c.targets := c.targets[entId := c.targets[entId].(tags := c.targets[entId].tags + {tagId})];
    r := Flag(None);
  }

  /** mutationResolver.ApplyTagToJob: inserts the tag into the job's tag set. */
  method ApplyTagToJob(c: Client, entId: Id, tagId: Id) returns (r: Reply<bool>)
    requires c.Valid()
    modifies c
    ensures c.Valid()
    ensures entId !in old(c.jobs) ==> r == Returned(true, Some(NotFound)) && c.State() == old(c.State())
    ensures entId in old(c.jobs) && tagId !in old(c.tags) ==>
              r == Returned(true, Some(ConstraintError)) && c.State() == old(c.State())
    ensures entId in old(c.jobs) && tagId in old(c.tags) ==>
              && r == Returned(false, None)
              && c.State() == old(c.State()).(jobs := old(c.jobs)[entId := old(c.jobs[entId]).(tags := old(c.jobs[entId].tags) + {tagId})])
  {
    if entId !in c.jobs {
      return Flag(Some(NotFound));
    }
    if tagId !in c.tags {
      return Flag(Some(ConstraintError));
    }
    c.jobs := c.jobs[entId := c.jobs[entId].(tags := c.jobs[entId].tags + {tagId})];
    r := Flag(None);
  }

  /** mutationResolver.RemoveTagFromTask: deletes the tag from the task's tag set. */
  method RemoveTagFromTask(c: Client, entId: Id, tagId: Id) returns (r: Reply<bool>)
    requires c.Valid()
    modifies c
    ensures c.Valid()
    ensures entId !in old(c.tasks) ==> r == Returned(true, Some(NotFound)) && c.State() == old(c.State())
    ensures entId in old(c.tasks) ==>
              && r == Returned(false, None)
              && c.State() == old(c.State()).(tasks := old(c.tasks)[entId := old(c.tasks[entId]).(tags := old(c.tasks[entId].tags) - {tagId})])
  {
    if entId !in c.tasks {
      return Flag(Some(NotFound));
    }
    c.tasks := c.tasks[entId := c.tasks[entId].(tags := c.tasks[entId].tags - {tagId})];
    r := Flag(None);
  }

  /** mutationResolver.RemoveTagFromTarget: deletes the tag from the target's tag set. */
  method RemoveTagFromTarget(c: Client, entId: Id, tagId: Id) returns (r: Reply<bool>)
    requires c.Valid()
    modifies c
    ensures c.Valid()
    ensures entId !in old(c.targets) ==> r == Returned(true, Some(NotFound)) && c.State() == old(c.State())
    ensures entId in old(c.targets) ==>
              && r == Returned(false, None)
              && c.State() == old(c.State()).(targets := old(c.targets)[entId := old(c.targets[entId]).(tags := old(c.targets[entId].tags) - {tagId})])
  {
    if entId !in c.targets {
      return Flag(Some(NotFound));
    }
    c.targets := c.targets[entId := c.targets[entId].(tags := c.targets[entId].tags - {tagId})];
    r := Flag(None);
  }

  /** mutationResolver.RemoveTagFromJob: deletes the tag from the job's tag set. */
  method RemoveTagFromJob(c: Client, entId: Id, tagId: Id) returns (r: Reply<bool>)
    requires c.Valid()
    modifies c
    ensures c.Valid()
    ensures entId !in old(c.jobs) ==> r == Returned(true, Some(NotFound)) && c.State() == old(c.State())
    ensures entId in old(c.jobs) ==>
              && r == Returned(false, None)
              && c.State() == old(c.State()).(jobs := old(c.jobs)[entId := old(c.jobs[entId]).(tags := old(c.jobs[entId].tags) - {tagId})])
  {
    if entId !in c.jobs {
      return Flag(Some(NotFound));
    }
    c.jobs := c.jobs[entId := c.jobs[entId].(tags := c.jobs[entId].tags - {tagId})];
    r := Flag(None);
  }

  /**
   * mutationResolver.CreateTarget: a new target with the given tags and no
   * tasks or credentials. Whether the store refuses the row as one that
   * already exists is decided by its schema, so it is the parameter
   * `duplicate`.
   */
  method CreateTarget(c: Client, name: string, primaryIP: string, tags: seq<Id>, duplicate: bool) returns (r: Reply<int>)
    requires c.Valid()
    modifies c
    ensures c.Valid()
    ensures duplicate ==> r == Returned(-1, Some(Conflict)) && c.State() == old(c.State())
    ensures !duplicate && (exists i :: 0 <= i < |tags| && tags[i] !in old(c.tags)) ==>
              r == Returned(-1, Some(ConstraintError)) && c.State() == old(c.State())
    ensures !duplicate && (forall i :: 0 <= i < |tags| ==> tags[i] in old(c.tags)) ==>
              && r == Returned(old(c.nextId), None)
              && c.State() == old(c.State()).(
                   targets := old(c.targets)[r.value := Target(name, primaryIP, None, None, None, None, TagSet(tags), {}, {})],
                   nextId := r.value + 1)
  {
    if duplicate {
      return Created(-1, Some(Conflict));
    }
    if exists i | 0 <= i < |tags| :: tags[i] !in c.tags {
      return Created(-1, Some(ConstraintError));
    }
    var id := c.NewId();
    c.targets := c.targets[id := Target(name, primaryIP, None, None, None, None, TagSet(tags), {}, {})];
    r := Created(id, None);
  }

  /** The value a field takes under "set only if provided". */
  function Provided<T>(update: Option<T>, current: T): (v: T)
    ensures update.None? ==> v == current
    ensures update.Some? ==> v == update.value
  {
    if update.Some? then update.value else current
  }

  /** Same, for a field that is itself optional (SetNillable...). */
  function ProvidedOpt<T>(update: Option<T>, current: Option<T>): (v: Option<T>)
    ensures update.None? ==> v == current
    ensures update.Some? ==> v == update
  {
    if update.Some? then update else current
  }

  /** mutationResolver.SetTargetFields: changes exactly the fields whose inputs are present. */
  method SetTargetFields(c: Client, input: SetTargetFieldsRequest) returns (r: Reply<bool>)
    requires c.Valid()
    modifies c
    ensures c.Valid()
    ensures input.id !in old(c.targets) ==> r == Returned(true, Some(NotFound)) && c.State() == old(c.State())
    ensures input.id in old(c.targets) ==>
              var t := old(c.targets[input.id]);
              && r == Returned(false, None)
              && c.State() == old(c.State()).(targets := old(c.targets)[input.id := t.(
                   name := Provided(input.name, t.name),
                   primaryIP := Provided(input.primaryIP, t.primaryIP),
                   hostname := ProvidedOpt(input.hostname, t.hostname),
                   machineUUID := ProvidedOpt(input.machineUUID, t.machineUUID),
                   primaryMAC := ProvidedOpt(input.primaryMAC, t.primaryMAC),
                   publicIP := ProvidedOpt(input.publicIP, t.publicIP))])
  {
    if input.id !in c.targets {
      return Flag(Some(NotFound));
    }
    var t := c.targets[input.id];
    if input.name.Some? {
      t := t.(name := input.name.value);
    }
    if input.primaryIP.Some? {
      t := t.(primaryIP := input.primaryIP.value);
    }
    t := t.(hostname := ProvidedOpt(input.hostname, t.hostname),
            machineUUID := ProvidedOpt(input.machineUUID, t.machineUUID),
            primaryMAC := ProvidedOpt(input.primaryMAC, t.primaryMAC),
            publicIP := ProvidedOpt(input.publicIP, t.publicIP));
    c.targets := c.targets[input.id := t];
    r := Flag(None);
  }

  /** mutationResolver.DeleteTarget. */
  method DeleteTarget(c: Client, id: Id) returns (r: Reply<bool>)
    requires c.Valid()
    modifies c
    ensures c.Valid()
    ensures id !in old(c.targets) ==> r == Returned(true, Some(NotFound)) && c.State() == old(c.State())
    ensures id in old(c.targets) ==>
              r == Returned(false, None) && c.State() == old(c.State()).(targets := old(c.targets) - {id})
  {
    if id !in c.targets {
      return Flag(Some(NotFound));
    }
    c.targets := c.targets - {id};
    r := Flag(None);
  }

  /**
   * mutationResolver.AddCredentialForTarget. The credential is saved before
   * the target is looked up, so an unknown target leaves a new credential
   * that no target owns. A failed credential save (`saveFails`) answers
   * `false` with the error, unlike every other failure path.
   */
  method AddCredentialForTarget(c: Client, id: Id, principal: string, secret: string, saveFails: bool) returns (r: Reply<bool>)
    requires c.Valid()
    modifies c
    ensures c.Valid()
    ensures saveFails ==> r == Returned(false, Some(Unavailable)) && c.State() == old(c.State())
    ensures !saveFails ==>
            var credId := old(c.nextId);
            && credId !in old(c.credentials)
            && c.credentials == old(c.credentials)[credId := Credential(principal, secret, 0)]
            && c.nextId == credId + 1
            && c.tags == old(c.tags) && c.jobs == old(c.jobs) && c.tasks == old(c.tasks)
            && (id !in old(c.targets) ==> r == Returned(true, Some(NotFound)) && c.targets == old(c.targets))
            && (id in old(c.targets) ==>
                  && r == Returned(false, None)
                  && c.targets == old(c.targets)[id := old(c.targets[id]).(credentials := old(c.targets[id].credentials) + {credId})])
  {
    if saveFails {
      return Returned(false, Some(Unavailable));
    }
    var credId := c.NewId();
    c.credentials := c.credentials[credId := Credential(principal, secret, 0)];
    if id !in c.targets {
      return Flag(Some(NotFound));
    }
    c.targets := c.targets[id := c.targets[id].(credentials := c.targets[id].credentials + {credId})];
    r := Flag(None);
  }

  // ---------------------------------------------------------------------
  // Job chain lookups (jobResolver.Next and jobResolver.Prev)
  // ---------------------------------------------------------------------

  /** The answer of a query asking for exactly one row. */
  datatype Lookup = Found(id: Id) | NoRow | NotSingular

  /** Only(): the single element of `s`, an error if there are none or several. */
  ghost function Only(s: set<Id>): (r: Lookup)
    ensures r == NoRow <==> s == {}
    ensures r.Found? <==> |s| == 1
    ensures r.Found? ==> s == {r.id}
  {
    if exists x :: x in s then
      var x :| x in s;
      SingletonByCard(s, x);
      if s == {x} then Found(x) else NotSingular
    else
      assert s == {};
      NoRow
  }

  lemma SingletonByCard(s: set<Id>, x: Id)
    requires x in s
    ensures |s| == 1 <==> s == {x}
  {
    if |s| == 1 {
      assert |s - {x}| == 0;
      assert s == {x};
    }
  }

  /** The jobs whose prev link names `id`: the jobs that follow it. */
  ghost function Followers(jobs: map<Id, Job>, id: Id): set<Id>
  {
    set j | j in jobs && jobs[j].prev == Some(id)
  }

  /** jobResolver.Next: the job that follows `id`. */
  ghost function Next(jobs: map<Id, Job>, id: Id): Lookup
  {
    Only(Followers(jobs, id))
  }

  /** jobResolver.Prev as written: it asks the same next-edge query as Next. */
  ghost function Prev(jobs: map<Id, Job>, id: Id): Lookup
  {
    Next(jobs, id)
  }

  /** With one-to-one links, Next finds the follower exactly when one exists, and never several. */
  lemma {:induction false} NextFindsFollower(jobs: map<Id, Job>, id: Id, j: Id)
    requires PrevLinksUnique(jobs)
    ensures Next(jobs, id) != NotSingular
    ensures Next(jobs, id) == Found(j) <==> j in jobs && jobs[j].prev == Some(id)
  {
    var f := Followers(jobs, id);
    forall x, y | x in f && y in f ensures x == y {
      assert jobs[x].prev == jobs[y].prev;
    }
    if exists x :: x in f {
      var x :| x in f;
      assert f == {x};
    }
    if j in jobs && jobs[j].prev == Some(id) {
      assert j in f;
      assert f == {j};
    }
  }

  /** The previous job, as the prev link records it: what Prev is evidently meant to return. */
  function PrevJob(jobs: map<Id, Job>, id: Id): (r: Lookup)
    ensures r != NotSingular
  {
    if id in jobs && jobs[id].prev.Some? then Found(jobs[id].prev.value) else NoRow
  }

  /** PrevJob and Next are inverse: p precedes id exactly when id follows p. */
  lemma PrevJobInvertsNext(jobs: map<Id, Job>, id: Id, p: Id)
    requires PrevLinksUnique(jobs)
    ensures PrevJob(jobs, id) == Found(p) <==> Next(jobs, p) == Found(id)
  {
    NextFindsFollower(jobs, p, id);
  }

  /**
   * Two chained jobs, 1 then 2: Prev of job 2 finds nothing and Prev of
   * job 1 answers job 2, its successor, while PrevJob answers job 1 and
   * nothing respectively.
   */
  lemma PrevAnswersSuccessor()
    ensures var jobs := map[1 := Job("first", "", 0, {}, None), 2 := Job("second", "", 0, {}, Some(1))];
            && Prev(jobs, 2) == NoRow && PrevJob(jobs, 2) == Found(1)
            && Prev(jobs, 1) == Found(2) && PrevJob(jobs, 1) == NoRow
  {
    var jobs := map[1 := Job("first", "", 0, {}, None), 2 := Job("second", "", 0, {}, Some(1))];
    assert Followers(jobs, 2) == {};
    assert Followers(jobs, 1) == {2};
  }
}
