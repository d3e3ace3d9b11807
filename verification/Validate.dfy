/** Validation of workflow specifications. */
module Validate {
  import opened Types
  import opened Graph

  datatype ValidationError =
    | InvalidAPIVersion
    | WorkflowWithoutTasks
    | InvalidOutputTask
    | TaskIDMissing
    | TaskRequiresFnRef
    | UndefinedDependency
    | CircularDependency
    | WorkflowWithoutStartTasks

  /** The requirements of the tasks of a specification. */
  function SpecDeps(spec: WorkflowSpec): Deps {
    map id | id in spec.tasks :: spec.tasks[id].requirements
  }

  /** The checks that look at one task at a time. */
  predicate LocallyValid(spec: WorkflowSpec) {
    && (spec.apiVersion == "" || spec.apiVersion == "v1" || spec.apiVersion == "V1")
    && spec.outputTask in spec.tasks
    && "" !in spec.tasks
    && (forall id | id in spec.tasks :: spec.tasks[id].functionRef != "")
    && (forall id | id in spec.tasks :: spec.tasks[id].requirements.Keys <= spec.tasks.Keys)
  }

  /** What a valid specification is. */
  ghost predicate ValidSpec(spec: WorkflowSpec) {
    LocallyValid(spec) && Acyclic(GraphOf(SpecDeps(spec)))
  }

  /** Whether a graph has a cycle: removes roots until none is left. */
  method HasCycle(g: Graph) returns (cyclic: bool)
    requires WellFormed(g)
    ensures cyclic <==> !Acyclic(g)
  {
    var rest := g;
    while RootSet(rest) != {}
      invariant WellFormed(rest) && rest == Induced(g, rest.nodes) && rest.nodes <= g.nodes
      invariant Acyclic(rest) <==> Acyclic(g)
      decreases rest.nodes
    {
      var r :| r in RootSet(rest);
      var keep := rest.nodes - {r};
      RemoveRoot(rest, r);
      rest := Induced(rest, keep);
    }
    if rest.nodes == {} {
      assert Ranked(rest, map[]);
      RankedIsAcyclic(rest, map[]);
    } else if Acyclic(rest) {
      RootExists(rest);
    }
    cyclic := rest.nodes != {};
  }

  lemma RemoveRoot(g: Graph, r: Id)
    requires WellFormed(g) && IsRoot(g, r)
    ensures WellFormed(Induced(g, g.nodes - {r}))
    ensures Acyclic(Induced(g, g.nodes - {r})) <==> Acyclic(g)
  {
    var rest := Induced(g, g.nodes - {r});
    if Acyclic(g) {
      InducedAcyclic(g, g.nodes - {r});
    }
    if Acyclic(rest) {
      var smaller := AcyclicIsRanked(rest);
      var rank := map n | n in g.nodes :: if n == r then 0 else smaller[n] + 1;
      forall a, b | (a, b) in g.edges ensures a in rank && b in rank && rank[a] < rank[b] {
        assert b != r;
        if a != r { assert (a, b) in rest.edges; }
      }
      RankedIsAcyclic(g, rank);
    }
  }

  /** Accumulates the errors of a specification. A task that requires itself panics in the graph library. The cycles
      that count are those of the graph that was parsed: with several dynamic requirements of one task, `parents` says
      which of them the source looked at. */
  method ValidateWorkflowSpec(spec: WorkflowSpec) returns (errs: seq<ValidationError>, ghost parents: map<Id, Id>)
    requires NoSelfDependency(SpecDeps(spec))
    ensures Chooses(SpecDeps(spec), parents)
    ensures forall err :: err in errs <==> Fault(spec, GraphWith(SpecDeps(spec), parents), err)
    ensures errs == [] <==> LocallyValid(spec) && Acyclic(GraphWith(SpecDeps(spec), parents))
    ensures ValidSpec(spec) ==> errs == []
    ensures errs == [] && SingleParent(SpecDeps(spec)) ==> ValidSpec(spec)
  {
    hide LocallyValid, Acyclic, SpecDeps, GraphWith, GraphOf, RequirementGraph, TaskFault;
    errs := [];
    if spec.apiVersion != "" && spec.apiVersion != "v1" && spec.apiVersion != "V1" {
      errs := errs + [InvalidAPIVersion];
    }
    if |spec.tasks| == 0 {
      errs := errs + [WorkflowWithoutTasks];
    }
    if spec.outputTask !in spec.tasks {
      errs := errs + [InvalidOutputTask];
    }
    assert forall err :: err in errs <==> HeaderFault(spec, err);
    ghost var header := errs;
    var taskErrs, startTasks := ValidateTasks(spec);
    errs := errs + taskErrs;
    var g;
    g, parents := Parse(SpecDeps(spec));
    ChosenIsWellFormed(SpecDeps(spec), parents);
    var cyclic := HasCycle(g);
    ghost var tail: seq<ValidationError> := [];
    if cyclic {
      errs := errs + [CircularDependency];
      tail := [CircularDependency];
    }
    if startTasks == 0 {
      errs := errs + [WorkflowWithoutStartTasks];
      tail := tail + [WorkflowWithoutStartTasks];
    }
    assert errs == header + taskErrs + tail;
    AllFaults(spec, g, header, taskErrs, tail);
    ChoiceBounds(SpecDeps(spec), parents);
    ValidWithoutFaults(spec, parents);
    assert errs != [] ==> errs[0] in errs;
    if ValidSpec(spec) {
      FewerEdges(GraphOf(SpecDeps(spec)), g);
    }
  }

  predicate HeaderFault(spec: WorkflowSpec, err: ValidationError) {
    match err
    case InvalidAPIVersion => spec.apiVersion != "" && spec.apiVersion != "v1" && spec.apiVersion != "V1"
    case WorkflowWithoutTasks => spec.tasks == map[]
    case InvalidOutputTask => spec.outputTask !in spec.tasks
    case _ => false
  }

  lemma AllFaults(spec: WorkflowSpec, g: Graph, header: seq<ValidationError>, tasks: seq<ValidationError>,
                  tail: seq<ValidationError>)
    requires forall err :: err in header <==> HeaderFault(spec, err)
    requires forall err :: err in tasks <==> TaskFault(spec, spec.tasks.Keys, err)
    requires forall err :: err in tail <==>
      (err == CircularDependency && !Acyclic(g)) || (err == WorkflowWithoutStartTasks && NoStartTask(spec))
    ensures forall err :: err in header + tasks + tail <==> Fault(spec, g, err)
  {
    hide Acyclic;
  }

  predicate NoStartTask(spec: WorkflowSpec) {
    forall id | id in spec.tasks :: spec.tasks[id].requirements != map[]
  }

  /** What each error about a task stands for. */
  predicate TaskFault(spec: WorkflowSpec, ids: set<Id>, err: ValidationError) {
    match err
    case TaskIDMissing => "" in ids && "" in spec.tasks
    case TaskRequiresFnRef => exists id | id in ids && id in spec.tasks :: spec.tasks[id].functionRef == ""
    case UndefinedDependency => exists id | id in ids && id in spec.tasks :: !(spec.tasks[id].requirements.Keys <= spec.tasks.Keys)
    case _ => false
  }

  /** The checks of the individual tasks and of their dependencies; also counts the tasks without requirements. */
  method ValidateTasks(spec: WorkflowSpec) returns (errs: seq<ValidationError>, startTasks: nat)
    ensures forall err :: err in errs <==> TaskFault(spec, spec.tasks.Keys, err)
    ensures startTasks == 0 <==> NoStartTask(spec)
  {
    errs, startTasks := [], 0;
    var todo := spec.tasks.Keys;
    while todo != {}
      invariant todo <= spec.tasks.Keys
      invariant forall err :: err in errs <==> TaskFault(spec, spec.tasks.Keys - todo, err)
      invariant startTasks == 0 <==> forall id | id in spec.tasks && id !in todo :: spec.tasks[id].requirements != map[]
      decreases todo
    {
      var id :| id in todo;
      var task := spec.tasks[id];
      ghost var before := errs;
      OneMoreFaulty(spec, spec.tasks.Keys - todo, id);
      assert spec.tasks.Keys - todo + {id} == spec.tasks.Keys - (todo - {id});
      if id == "" {
        errs := errs + [TaskIDMissing];
      }
      if task.functionRef == "" {
        errs := errs + [TaskRequiresFnRef];
      }
      if |task.requirements| == 0 {
        startTasks := startTasks + 1;
      }
      if exists dep | dep in task.requirements :: dep !in spec.tasks {
        errs := errs + [UndefinedDependency];
      }
      todo := todo - {id};
    }
  }

  lemma OneMoreFaulty(spec: WorkflowSpec, ids: set<Id>, id: Id)
    requires id in spec.tasks
    ensures forall err :: TaskFault(spec, ids + {id}, err) <==>
      || TaskFault(spec, ids, err)
      || (err == TaskIDMissing && id == "")
      || (err == TaskRequiresFnRef && spec.tasks[id].functionRef == "")
      || (err == UndefinedDependency && !(spec.tasks[id].requirements.Keys <= spec.tasks.Keys))
  {
  }

  /** What each error about a specification stands for, if this is the graph that was parsed. */
  ghost predicate Fault(spec: WorkflowSpec, g: Graph, err: ValidationError) {
    match err
    case CircularDependency => !Acyclic(g)
    case WorkflowWithoutStartTasks => NoStartTask(spec)
    case _ => HeaderFault(spec, err) || TaskFault(spec, spec.tasks.Keys, err)
  }

  /** There is a fault exactly when a local check fails or there is a cycle. */
  lemma ValidWithoutFaults(spec: WorkflowSpec, parents: map<Id, Id>)
    ensures (forall err :: !Fault(spec, GraphWith(SpecDeps(spec), parents), err)) <==>
      LocallyValid(spec) && Acyclic(GraphWith(SpecDeps(spec), parents))
  {
    var g := GraphWith(SpecDeps(spec), parents);
    if LocallyValid(spec) && Acyclic(g) {
      StartTaskExists(spec, parents);
    }
    assert (LocallyValid(spec) && Acyclic(g)) ||
      Fault(spec, g, InvalidAPIVersion) || Fault(spec, g, InvalidOutputTask) || Fault(spec, g, CircularDependency) ||
      Fault(spec, g, TaskIDMissing) || Fault(spec, g, TaskRequiresFnRef) || Fault(spec, g, UndefinedDependency);
  }

  /** A specification is valid exactly when validation accepts it whichever dynamic parents parsing picks. */
  lemma ValidIffAlwaysAccepted(spec: WorkflowSpec)
    ensures ValidSpec(spec) <==>
      LocallyValid(spec) &&
      forall parents | Chooses(SpecDeps(spec), parents) :: Acyclic(GraphWith(SpecDeps(spec), parents))
  {
    AcyclicIffEveryChoice(SpecDeps(spec));
  }

  /** The check for starting points is implied by the others: an acyclic set of tasks has one. */
  lemma StartTaskExists(spec: WorkflowSpec, parents: map<Id, Id>)
    requires LocallyValid(spec) && Acyclic(GraphWith(SpecDeps(spec), parents))
    ensures exists id :: id in spec.tasks && spec.tasks[id].requirements == map[]
  {
    var deps := SpecDeps(spec);
    var g := GraphWith(deps, parents);
    assert spec.outputTask in g.nodes;
    RootExists(g);
    var id :| id in RootSet(g);
    forall p | p in deps[id] ensures false {
      EdgeWith(deps, parents, p, id);
    }
  }

  /** The workflow has the tasks of the specification. */
  ghost predicate Parses(spec: WorkflowSpec, wf: Workflow) {
    wf.tasks.Keys == spec.tasks.Keys && forall id | id in wf.tasks :: wf.tasks[id] == Task(id, spec.tasks[id])
  }
}
