/** Publishing and clearing the project and workspace scopes (lifecycle.rs, `ScopeSlot`, `ScopeManager`). */
module Publication {
  import opened Basics
  import opened Effects
  import opened Scopes

  datatype Rejection =
    | NotReady(actual: Lifecycle)
    | ExpectedOldMismatch
    | WorkspaceTreePublicationRequired
    | WorkspaceParentProjectMissing
    | InvalidChildParent
    | ProjectExpectedOldMismatch
    | WorkspaceExpectedOldMismatch

  datatype Stale = Stale

  /** Every object that belongs to a scope. */
  ghost function Parts(s: ScopeSnapshot?): set<object> {
    if s == null then {} else {s, s.children, s.registry} + set p: EffectStack | p in s.plugins :: p as object
  }

  /** The effect stacks are sound, belong to this scope alone, and are untouched until the scope is disposed of. */
  ghost predicate WellKept(s: ScopeSnapshot)
    reads Parts(s)
  {
    Distinct(s.plugins) && forall p :: p in s.plugins ==> p.Valid() && (s.report.None? ==> p.report.None?)
  }

  /** A scope that serves: routed, never disposed of. */
  ghost predicate Serving(s: ScopeSnapshot)
    reads Parts(s)
  {
    s.state == Active && s.routing && s.report.None? && WellKept(s)
  }

  /** A candidate: no children of its own, and its report, if any, is honest and covers its effect stacks. */
  ghost predicate Presentable(c: ScopeSnapshot)
    reads Parts(c)
  {
    && c.children.items == [] && Honest(c) && Covered(c) && WellKept(c)
    && (ClaimsDisposed(c) ==> forall p :: p in c.plugins ==> StackDisposed(p))
  }

  /** Put through disposal: it has a report, which covers each of its effect stacks, and it routes nothing. */
  ghost predicate PutThroughDisposal(s: ScopeSnapshot)
    reads Parts(s)
  {
    s.report.Some? && Honest(s) && Covered(s)
  }

  /** Every effect stack of such a scope was itself disposed of. */
  lemma StacksAreReported(s: ScopeSnapshot)
    requires PutThroughDisposal(s)
    ensures forall p :: p in s.plugins ==> p.report.Some?
  {
    forall p | p in s.plugins ensures p.report.Some? {
      var i :| 0 <= i < |s.plugins| && s.plugins[i] == p;
      assert PluginReported(Reversed(s.plugins)[|s.plugins|-1-i], s.report.value.plugins[|s.plugins|-1-i]);
    }
  }

  /** The disposers that the report of `s` speaks of, unless it had that report before. */
  ghost function FirstRuns(before: Option<ScopeReport>, s: ScopeSnapshot): seq<Run>
    reads s
  {
    if before.Some? || s.report.None? then [] else ReportRuns(s.report.value)
  }

  /** The same without the children. */
  ghost function OwnRuns(before: Option<ScopeReport>, s: ScopeSnapshot): seq<Run>
    reads s
  {
    if before.Some? || s.report.None? then [] else PluginRuns(s.report.value.plugins)
  }

  /** When no deadline passes and every disposer succeeds, a first disposal leaves nothing behind. */
  ghost predicate CleanIn(world: World, before: Option<ScopeReport>, s: ScopeSnapshot)
    reads s`report
  {
    world.Kind() && before.None? ==> ClaimsDisposed(s)
  }

  function Only(s: ScopeSnapshot?): seq<ScopeSnapshot> { if s == null then [] else [s] }

  /** A scope without children. */
  method DisposeLeaf(s: ScopeSnapshot, world: World) returns (result: ScopeReport, log: seq<Run>)
    requires Presentable(s) && world.Valid()
    modifies Parts(s), world
    ensures world.Valid() && world.runs == old(world.runs) + |log|
    ensures Presentable(s) && PutThroughDisposal(s) && s.report == Some(result)
    ensures log == FirstRuns(old(s.report), s) == OwnRuns(old(s.report), s)
    ensures old(s.report).Some? ==> result == old(s.report).value
    ensures CleanIn(world, old(s.report), s)
    ensures old(s.report).None? ==> s.registry.entries == LeftOver(old(s.registry.entries), result.plugins)
  {
    assert Vouches(s);
    result, log := s.DisposeLeaf(world);
    assert Vouches(s);
  }

  /** A scope with the one child that hangs below it; only a passed deadline can spare the child. */
  method DisposeParent(s: ScopeSnapshot, c: ScopeSnapshot, world: World) returns (result: ScopeReport, log: seq<Run>)
    requires s.children.items == [c] && s.report.None? && WellKept(s) && Presentable(c) && world.Valid()
    requires c.height < s.height && Parts(s) !! Parts(c)
    modifies Parts(s), Parts(c), world
    ensures world.Valid() && world.runs == old(world.runs) + |log|
    ensures s.children.items == [c] && PutThroughDisposal(s) && s.report == Some(result)
    ensures c.children.items == [] && Honest(c) && Covered(c)
    ensures old(c.report).Some? || !world.passed ==> PutThroughDisposal(c)
    ensures old(c.report).Some? ==> c.report == old(c.report)
    ensures log == if old(c.report).Some? then PluginRuns(result.plugins) else ReportRuns(result)
    ensures CleanIn(world, old(c.report), s)
    ensures ClaimsDisposed(s) ==> FullyDisposed(s) && FullyDisposed(c)
  {
    ghost var below: Shape := map[s := {s, c}, c := {c}];
    PairIsTree(s, c);
    assert Vouches(s) && Vouches(c) && below[s] == {s, c};
    assert c.report.None? ==> Untouched(below[s]);
    result, log := s.QuiesceAndDispose(below, world);
    assert Vouches(s) && Vouches(c);
  }

  lemma PairIsTree(s: ScopeSnapshot, c: ScopeSnapshot)
    requires s.children.items == [c] && c.children.items == [] && Distinct(s.plugins) && Distinct(c.plugins)
    requires c.height < s.height && Parts(s) !! Parts(c)
    ensures var below: Shape := map[s := {s, c}, c := {c}]; Tree(below) && Owns(below, s)
    ensures Stacks({s, c}) == (set p | p in s.plugins + c.plugins) && Registries({s, c}) == {s.registry, c.registry}
  {
    assert forall p :: p in s.plugins ==> p as object in Parts(s);
    assert forall p :: p in c.plugins ==> p as object in Parts(c);
    assert {s, c} - {s} == {c};
  }

  /** Attached to each other and ready to be published. */
  ghost predicate Staged(project: ScopeSnapshot, workspace: ScopeSnapshot)
    reads Parts(project), Parts(workspace)
  {
    && project.state == Ready && project.report.None? && WellKept(project) && project.children.items == [workspace]
    && workspace.state == Ready && workspace.report.None? && WellKept(workspace) && workspace.children.items == []
  }

  /** The two candidates of a tree that was refused, the workspace first. */
  method DisposeCandidates(project: ScopeSnapshot, workspace: ScopeSnapshot, world: World) returns (log: seq<Run>)
    requires Presentable(workspace) && Parts(project) !! Parts(workspace) && world.Valid()
    requires Presentable(project) || (Staged(project, workspace) && workspace.height < project.height)
    modifies Parts(project), Parts(workspace), world
    ensures world.Valid() && world.runs == old(world.runs) + |log|
    ensures PutThroughDisposal(project) && PutThroughDisposal(workspace) && CleanIn(world, old(workspace.report), workspace)
    ensures log == FirstRuns(old(workspace.report), workspace) + OwnRuns(old(project.report), project)
  {
    var report, first := DisposeLeaf(workspace, world);
    var second;
    if project.children.items == [] {
      report, second := DisposeLeaf(project, world);
    } else {
      report, second := DisposeParent(project, workspace, world);
    }
    log := first + second;
  }

  /** A replaced project takes the workspace below it along. */
  method RetireProject(project: ScopeSnapshot?, workspace: ScopeSnapshot?, world: World)
    returns (report: Option<ScopeReport>, log: seq<Run>)
    requires workspace != null ==> project != null
    requires project != null ==> Serving(project) && project.children.items == Only(workspace)
    requires workspace != null ==>
      && Serving(workspace) && workspace.children.items == []
      && workspace.height < project.height && Parts(project) !! Parts(workspace)
    requires world.Valid()
    modifies Parts(project), Parts(workspace), world
    ensures world.Valid() && world.runs == old(world.runs) + |log|
    ensures project != null ==> PutThroughDisposal(project) && report == project.report && log == ReportRuns(report.value)
    ensures project != null ==> CleanIn(world, None, project)
    ensures project == null ==> log == []
    ensures workspace != null && !world.passed ==> PutThroughDisposal(workspace)
    ensures workspace != null && ClaimsDisposed(project) ==> FullyDisposed(workspace)
  {
    if project == null {
      return None, [];
    }
    project.BeginQuiesce();
    var result;
    if workspace == null {
      result, log := DisposeLeaf(project, world);
    } else {
      result, log := DisposeParent(project, workspace, world);
    }
    return Some(result), log;
  }

  // ---------------------------------------------------------------- slots

  class ScopeSlot {
    var current: ScopeSnapshot?

    constructor ()
      ensures current == null
    {
      current := null;
    }

    /**
     * Publishes the candidate in place of `expected`, which is retired, under the given parent; a candidate that
     * cannot be published is put through disposal and the slot stays as it is.
     */
    method PublishWith(expected: ScopeSnapshot?, candidate: ScopeSnapshot, parent: ChildList, world: World)
      returns (result: Result<Option<ScopeReport>, Rejection>, log: seq<Run>)
      requires Presentable(candidate) && parent.items == Only(current) && world.Valid()
      requires parent !in Parts(candidate) && parent !in Parts(current) && Parts(candidate) !! Parts(current)
      requires current != null ==> Serving(current) && current.children.items == []
      modifies this, parent, Parts(current), Parts(candidate), world
      ensures world.Valid() && world.runs == old(world.runs) + |log|
      ensures result.Ok? <==> old(candidate.state) == Ready && old(current) == expected
      ensures result.Err? ==>
        result.error == if old(candidate.state) != Ready then NotReady(old(candidate.state)) else ExpectedOldMismatch
      ensures result.Ok? ==> current == candidate && Serving(candidate) && candidate.children.items == []
      ensures result.Ok? ==> expected != null ==>
        && PutThroughDisposal(expected) && CleanIn(world, None, expected)
        && result.value == expected.report && log == ReportRuns(expected.report.value)
      ensures result.Ok? && expected == null ==> log == []
      ensures result.Err? ==>
        && current == old(current) && PutThroughDisposal(candidate) && CleanIn(world, old(candidate.report), candidate)
        && log == FirstRuns(old(candidate.report), candidate)
      ensures result.Err? && current != null ==> Serving(current) && current.children.items == []
      ensures parent.items == Only(current)
    {
      if candidate.state != Ready {
        var actual := candidate.state;
        log := Refuse(candidate, parent, world);
        return Err(NotReady(actual)), log;
      }
      if current != expected {
        log := Refuse(candidate, parent, world);
        return Err(ExpectedOldMismatch), log;
      }
      var report;
      report, log := TakePlace(candidate, parent, world);
      return Ok(report), log;
    }

    /** A refused candidate is put through disposal; what the slot holds goes on serving. */
    method Refuse(candidate: ScopeSnapshot, parent: ChildList, world: World) returns (log: seq<Run>)
      requires Presentable(candidate) && parent.items == Only(current) && world.Valid()
      requires parent !in Parts(candidate) && parent !in Parts(current) && Parts(candidate) !! Parts(current)
      requires current != null ==> Serving(current) && current.children.items == []
      modifies Parts(candidate), world
      ensures world.Valid() && world.runs == old(world.runs) + |log|
      ensures PutThroughDisposal(candidate) && CleanIn(world, old(candidate.report), candidate)
      ensures log == FirstRuns(old(candidate.report), candidate)
      ensures current != null ==> Serving(current) && current.children.items == []
      ensures parent.items == Only(current)
    {
      var report;
      report, log := DisposeLeaf(candidate, world);
    }

    /** The candidate starts serving in the slot and under the parent, and the scope that was there is retired. */
    method TakePlace(candidate: ScopeSnapshot, parent: ChildList, world: World) returns (report: Option<ScopeReport>, log: seq<Run>)
      requires Presentable(candidate) && candidate.state == Ready && parent.items == Only(current) && world.Valid()
      requires parent !in Parts(candidate) && parent !in Parts(current) && Parts(candidate) !! Parts(current)
      requires current != null ==> Serving(current) && current.children.items == []
      modifies this, parent, Parts(current), Parts(candidate), world
      ensures world.Valid() && world.runs == old(world.runs) + |log|
      ensures current == candidate && Serving(candidate) && candidate.children.items == [] && parent.items == Only(candidate)
      ensures old(current) != null ==>
        && PutThroughDisposal(old(current)) && CleanIn(world, None, old(current))
        && report == old(current).report && log == ReportRuns(report.value)
      ensures old(current) == null ==> report == None && log == []
    {
      var previous := current;
      SwapIn(candidate, parent);
      if previous == null {
        return None, [];
      }
      report, log := Retire(previous, candidate, parent, world);
    }

    /** From here on the candidate serves and the former scope does not. */
    method SwapIn(candidate: ScopeSnapshot, parent: ChildList)
      requires Presentable(candidate) && candidate.state == Ready && parent.items == Only(current)
      requires parent !in Parts(candidate) && parent !in Parts(current) && Parts(candidate) !! Parts(current)
      requires current != null ==> Serving(current) && current.children.items == []
      modifies this, parent, current, candidate
      ensures current == candidate && Serving(candidate) && candidate.children.items == [] && parent.items == Only(candidate)
      ensures old(current) != null ==> Presentable(old(current)) && old(current).report.None?
    {
      var previous := current;
      current := candidate;
      var ok := candidate.MarkActive();
      if previous != null {
        previous.BeginQuiesce();
      }
      parent.Replace(previous, candidate);
    }

    /** Retiring the former scope leaves the new one alone. */
    method Retire(previous: ScopeSnapshot, candidate: ScopeSnapshot, parent: ChildList, world: World)
      returns (report: Option<ScopeReport>, log: seq<Run>)
      requires Presentable(previous) && previous.report.None? && world.Valid()
      requires Serving(candidate) && candidate.children.items == [] && parent.items == Only(candidate)
      requires parent !in Parts(previous) && Parts(candidate) !! Parts(previous)
      modifies Parts(previous), world
      ensures world.Valid() && world.runs == old(world.runs) + |log|
      ensures Serving(candidate) && candidate.children.items == [] && parent.items == Only(candidate)
      ensures PutThroughDisposal(previous) && CleanIn(world, None, previous)
      ensures report == previous.report && log == ReportRuns(report.value)
    {
      var result;
      result, log := DisposeLeaf(previous, world);
      report := Some(result);
    }
  }

  // ---------------------------------------------------------------- the manager

  /** A workspace only below a project, the parent it names; no scope shares anything with another. */
  ghost predicate Layout(application: ScopeSnapshot, project: ScopeSnapshot?, workspace: ScopeSnapshot?) {
    && (project != null ==> project.height < application.height && Parts(project) !! Parts(application))
    && (workspace != null ==>
          && project != null && workspace.parent == Some(project.id) && workspace.height < project.height
          && Parts(workspace) !! Parts(application) && Parts(workspace) !! Parts(project))
  }

  /** Every scope in a slot serves, and each one's only child is the scope in the slot below. */
  ghost predicate Mirrors(application: ScopeSnapshot, project: ScopeSnapshot?, workspace: ScopeSnapshot?)
    reads Parts(application), Parts(project), Parts(workspace)
  {
    && Serving(application) && application.children.items == Only(project)
    && (project != null ==> Serving(project) && project.children.items == Only(workspace))
    && (workspace != null ==> Serving(workspace) && workspace.children.items == [])
  }

  /** Disposing of the candidates leaves what is published alone. */
  method DisposeBeside(ghost application: ScopeSnapshot, ghost current: ScopeSnapshot?, ghost below: ScopeSnapshot?,
    project: ScopeSnapshot, workspace: ScopeSnapshot, world: World)
    returns (log: seq<Run>)
    requires Presentable(workspace) && Parts(project) !! Parts(workspace) && world.Valid()
    requires Presentable(project) || (Staged(project, workspace) && workspace.height < project.height)
    requires Mirrors(application, current, below)
    requires Parts(project) + Parts(workspace) !! Parts(application) + Parts(current) + Parts(below)
    modifies Parts(project), Parts(workspace), world
    ensures world.Valid() && world.runs == old(world.runs) + |log|
    ensures PutThroughDisposal(project) && PutThroughDisposal(workspace) && CleanIn(world, old(workspace.report), workspace)
    ensures log == FirstRuns(old(workspace.report), workspace) + OwnRuns(old(project.report), project)
    ensures Mirrors(application, current, below)
  {
    log := DisposeCandidates(project, workspace, world);
  }

  class ScopeManager {
    const application: ScopeSnapshot
    const projectSlot: ScopeSlot
    const workspaceSlot: ScopeSlot

    ghost function Objects(): set<object>
      reads projectSlot, workspaceSlot
    {
      Parts(application) + Parts(projectSlot.current) + Parts(workspaceSlot.current)
    }

    /** The child lists mirror the slots, and the scopes in the slots serve. */
    ghost predicate Valid()
      reads projectSlot, workspaceSlot, Objects()
    {
      && projectSlot != workspaceSlot && {projectSlot, workspaceSlot} !! Objects()
      && Layout(application, projectSlot.current, workspaceSlot.current)
      && Mirrors(application, projectSlot.current, workspaceSlot.current)
    }

    /** The candidate shares nothing with the scopes in the slots. */
    ghost predicate Detached(candidate: ScopeSnapshot)
      reads projectSlot, workspaceSlot, Parts(candidate)
    {
      && Presentable(candidate) && Parts(candidate) !! Objects()
      && projectSlot !in Parts(candidate) && workspaceSlot !in Parts(candidate)
    }

    constructor (application: ScopeSnapshot)
      requires Presentable(application) && application.state == Ready
      modifies Parts(application)
      ensures Valid() && fresh(projectSlot) && fresh(workspaceSlot)
      ensures this.application == application && projectSlot.current == null && workspaceSlot.current == null
    {
      this.application := application;
      projectSlot := new ScopeSlot();
      workspaceSlot := new ScopeSlot();
      new;
      var ok := application.MarkActive();
    }

    /** Disposing of a scope outside the slots changes nothing inside. */
    method DisposeApart(s: ScopeSnapshot, world: World) returns (report: ScopeReport, log: seq<Run>)
      requires Valid() && Detached(s) && world.Valid()
      modifies Parts(s), world
      ensures world.Valid() && world.runs == old(world.runs) + |log|
      ensures Valid() && PutThroughDisposal(s) && CleanIn(world, old(s.report), s)
      ensures s.report == Some(report) && log == FirstRuns(old(s.report), s)
    {
      report, log := DisposeLeaf(s, world);
    }

    /** Replaces the workspace below the current project. */
    method PublishWorkspace(expected: ScopeSnapshot?, candidate: ScopeSnapshot, world: World)
      returns (result: Result<Option<ScopeReport>, Rejection>, log: seq<Run>)
      requires Valid() && Detached(candidate) && world.Valid()
      requires projectSlot.current != null ==> candidate.height < projectSlot.current.height
      modifies workspaceSlot, world, Parts(candidate), Parts(workspaceSlot.current)
      modifies if projectSlot.current == null then {} else {projectSlot.current.children}
      ensures world.Valid() && world.runs == old(world.runs) + |log|
      ensures Valid() && projectSlot.current == old(projectSlot.current)
      ensures result.Ok? <==>
        && projectSlot.current != null && candidate.parent == Some(projectSlot.current.id)
        && old(candidate.state) == Ready && old(workspaceSlot.current) == expected
      ensures result.Ok? ==> workspaceSlot.current == candidate
      ensures result.Err? ==>
        result.error == if projectSlot.current == null then WorkspaceParentProjectMissing
        else if candidate.parent != Some(projectSlot.current.id) then InvalidChildParent
        else if old(candidate.state) != Ready then NotReady(old(candidate.state))
        else ExpectedOldMismatch
      ensures result.Ok? ==> expected != null ==>
        && PutThroughDisposal(expected) && CleanIn(world, None, expected)
        && result.value == expected.report && log == ReportRuns(expected.report.value)
      ensures result.Ok? && expected == null ==> log == []
      ensures result.Err? ==> workspaceSlot.current == old(workspaceSlot.current)
      ensures result.Err? ==> PutThroughDisposal(candidate) && CleanIn(world, old(candidate.report), candidate)
      ensures result.Err? ==> log == FirstRuns(old(candidate.report), candidate)
    {
      var project := projectSlot.current;
      if project == null || candidate.parent != Some(project.id) {
        var _, ran := DisposeApart(candidate, world);
        return Err(if project == null then WorkspaceParentProjectMissing else InvalidChildParent), ran;
      }
      result, log := PublishBelow(project, expected, candidate, world);
    }

    /** The candidate names the project that is published. */
    method PublishBelow(project: ScopeSnapshot, expected: ScopeSnapshot?, candidate: ScopeSnapshot, world: World)
      returns (result: Result<Option<ScopeReport>, Rejection>, log: seq<Run>)
      requires Valid() && Detached(candidate) && world.Valid()
      requires projectSlot.current == project && candidate.height < project.height && candidate.parent == Some(project.id)
      modifies workspaceSlot, project.children, world, Parts(candidate), Parts(workspaceSlot.current)
      ensures world.Valid() && world.runs == old(world.runs) + |log|
      ensures Valid() && projectSlot.current == old(projectSlot.current)
      ensures result.Ok? <==> old(candidate.state) == Ready && old(workspaceSlot.current) == expected
      ensures result.Ok? ==> workspaceSlot.current == candidate
      ensures result.Err? ==>
        result.error == if old(candidate.state) != Ready then NotReady(old(candidate.state)) else ExpectedOldMismatch
      ensures result.Ok? ==> expected != null ==>
        && PutThroughDisposal(expected) && CleanIn(world, None, expected)
        && result.value == expected.report && log == ReportRuns(expected.report.value)
      ensures result.Ok? && expected == null ==> log == []
      ensures result.Err? ==> workspaceSlot.current == old(workspaceSlot.current)
      ensures result.Err? ==> PutThroughDisposal(candidate) && CleanIn(world, old(candidate.report), candidate)
      ensures result.Err? ==> log == FirstRuns(old(candidate.report), candidate)
    {
      result, log := workspaceSlot.PublishWith(expected, candidate, project.children, world);
    }

    /** Replaces the project; a project with a workspace is replaced only together with it. */
    method PublishProject(expected: ScopeSnapshot?, candidate: ScopeSnapshot, world: World)
      returns (result: Result<Option<ScopeReport>, Rejection>, log: seq<Run>)
      requires Valid() && Detached(candidate) && world.Valid() && candidate.height < application.height
      modifies projectSlot, application.children, world, Parts(candidate), Parts(projectSlot.current)
      ensures world.Valid() && world.runs == old(world.runs) + |log|
      ensures Valid() && workspaceSlot.current == old(workspaceSlot.current)
      ensures result.Ok? <==>
        workspaceSlot.current == null && old(candidate.state) == Ready && old(projectSlot.current) == expected
      ensures result.Ok? ==> projectSlot.current == candidate
      ensures result.Err? ==>
        result.error == if workspaceSlot.current != null then WorkspaceTreePublicationRequired
        else if old(candidate.state) != Ready then NotReady(old(candidate.state))
        else ExpectedOldMismatch
      ensures result.Ok? ==> expected != null ==>
        && PutThroughDisposal(expected) && CleanIn(world, None, expected)
        && result.value == expected.report && log == ReportRuns(expected.report.value)
      ensures result.Ok? && expected == null ==> log == []
      ensures result.Err? ==> projectSlot.current == old(projectSlot.current)
      ensures result.Err? ==> PutThroughDisposal(candidate) && CleanIn(world, old(candidate.report), candidate)
      ensures result.Err? ==> log == FirstRuns(old(candidate.report), candidate)
    {
      if workspaceSlot.current != null {
        var _, ran := DisposeApart(candidate, world);
        return Err(WorkspaceTreePublicationRequired), ran;
      }
      result, log := projectSlot.PublishWith(expected, candidate, application.children, world);
    }

    /** Refusing a tree leaves what the slots hold alone. */
    method RefuseTree(project: ScopeSnapshot, workspace: ScopeSnapshot, world: World) returns (log: seq<Run>)
      requires Presentable(workspace) && Parts(project) !! Parts(workspace) && world.Valid()
      requires Presentable(project) || (Staged(project, workspace) && workspace.height < project.height)
      requires Mirrors(application, projectSlot.current, workspaceSlot.current)
      requires Parts(project) + Parts(workspace) !! Objects() + {projectSlot, workspaceSlot}
      modifies Parts(project), Parts(workspace), world
      ensures world.Valid() && world.runs == old(world.runs) + |log|
      ensures PutThroughDisposal(project) && PutThroughDisposal(workspace) && CleanIn(world, old(workspace.report), workspace)
      ensures log == FirstRuns(old(workspace.report), workspace) + OwnRuns(old(project.report), project)
      ensures Mirrors(application, projectSlot.current, workspaceSlot.current)
    {
      log := DisposeBeside(application, projectSlot.current, workspaceSlot.current, project, workspace, world);
    }

    /** Both swaps happen or neither does: losing the second one undoes the first. */
    method SwapSlots(expectedProject: ScopeSnapshot?, project: ScopeSnapshot,
      expectedWorkspace: ScopeSnapshot?, workspace: ScopeSnapshot)
      returns (rejection: Option<Rejection>)
      requires projectSlot != workspaceSlot
      modifies projectSlot, workspaceSlot
      ensures rejection == if old(projectSlot.current) != expectedProject then Some(ProjectExpectedOldMismatch)
        else if old(workspaceSlot.current) != expectedWorkspace then Some(WorkspaceExpectedOldMismatch)
        else None
      ensures projectSlot.current == if rejection.None? then project else old(projectSlot.current)
      ensures workspaceSlot.current == if rejection.None? then workspace else old(workspaceSlot.current)
    {
      var previous := projectSlot.current;
      if previous != expectedProject {
        return Some(ProjectExpectedOldMismatch);
      }
      projectSlot.current := project;
      if workspaceSlot.current != expectedWorkspace {
        projectSlot.current := previous;
        return Some(WorkspaceExpectedOldMismatch);
      }
      workspaceSlot.current := workspace;
      return None;
    }

    /** The swaps leave the scopes themselves alone. */
    method SwapTree(expectedProject: ScopeSnapshot?, project: ScopeSnapshot,
      expectedWorkspace: ScopeSnapshot?, workspace: ScopeSnapshot)
      returns (rejection: Option<Rejection>)
      requires projectSlot != workspaceSlot && Staged(project, workspace) && Presentable(workspace)
      requires Parts(project) + Parts(workspace) + Objects() !! {projectSlot, workspaceSlot}
      requires Mirrors(application, projectSlot.current, workspaceSlot.current)
      modifies projectSlot, workspaceSlot
      ensures Staged(project, workspace) && Presentable(workspace)
      ensures Mirrors(application, old(projectSlot.current), old(workspaceSlot.current))
      ensures rejection == if old(projectSlot.current) != expectedProject then Some(ProjectExpectedOldMismatch)
        else if old(workspaceSlot.current) != expectedWorkspace then Some(WorkspaceExpectedOldMismatch)
        else None
      ensures projectSlot.current == if rejection.None? then project else old(projectSlot.current)
      ensures workspaceSlot.current == if rejection.None? then workspace else old(workspaceSlot.current)
    {
      rejection := SwapSlots(expectedProject, project, expectedWorkspace, workspace);
    }

    /** Both candidates must be ready, and the workspace must name the project as its parent. */
    method AdmitTree(project: ScopeSnapshot, workspace: ScopeSnapshot) returns (rejection: Option<Rejection>)
      requires Presentable(project) && Presentable(workspace) && Parts(project) !! Parts(workspace)
      requires Mirrors(application, projectSlot.current, workspaceSlot.current)
      requires Parts(project) !! Objects()
      modifies project.children
      ensures Mirrors(application, projectSlot.current, workspaceSlot.current)
      ensures Presentable(workspace)
      ensures if rejection.None? then Staged(project, workspace) else Presentable(project)
      ensures rejection == if project.state != Ready then Some(NotReady(project.state))
        else if workspace.state != Ready then Some(NotReady(workspace.state))
        else if workspace.parent != Some(project.id) then Some(InvalidChildParent)
        else None
    {
      if project.state != Ready || workspace.state != Ready {
        return Some(NotReady(if project.state != Ready then project.state else workspace.state));
      }
      if workspace.parent != Some(project.id) {
        return Some(InvalidChildParent);
      }
      var attached := project.AttachChild(workspace);
      return None;
    }

    /** Everything up to the point of no return. */
    method StageTree(expectedProject: ScopeSnapshot?, project: ScopeSnapshot,
      expectedWorkspace: ScopeSnapshot?, workspace: ScopeSnapshot, world: World)
      returns (rejection: Option<Rejection>, log: seq<Run>)
      requires world.Valid() && Presentable(project) && Presentable(workspace) && workspace.height < project.height
      requires Parts(project) !! Parts(workspace)
      requires Parts(project) + Parts(workspace) !! Objects() + {projectSlot, workspaceSlot}
      requires projectSlot != workspaceSlot && {projectSlot, workspaceSlot} !! Objects()
      requires Mirrors(application, projectSlot.current, workspaceSlot.current)
      modifies projectSlot, workspaceSlot, Parts(project), Parts(workspace), world
      ensures world.Valid() && world.runs == old(world.runs) + |log|
      ensures Mirrors(application, old(projectSlot.current), old(workspaceSlot.current))
      ensures rejection.None? <==>
        && old(project.state) == Ready && old(workspace.state) == Ready && workspace.parent == Some(project.id)
        && old(projectSlot.current) == expectedProject && old(workspaceSlot.current) == expectedWorkspace
      ensures rejection.None? ==>
        && projectSlot.current == project && workspaceSlot.current == workspace && Staged(project, workspace)
      ensures rejection.Some? ==>
        && projectSlot.current == old(projectSlot.current) && workspaceSlot.current == old(workspaceSlot.current)
        && PutThroughDisposal(project) && PutThroughDisposal(workspace) && CleanIn(world, old(workspace.report), workspace)
        && log == FirstRuns(old(workspace.report), workspace) + OwnRuns(old(project.report), project)
      ensures rejection.None? ==> log == []
      ensures rejection.Some? ==>
        rejection.value == if old(project.state) != Ready then NotReady(old(project.state))
        else if old(workspace.state) != Ready then NotReady(old(workspace.state))
        else if workspace.parent != Some(project.id) then InvalidChildParent
        else if old(projectSlot.current) != expectedProject then ProjectExpectedOldMismatch
        else WorkspaceExpectedOldMismatch
    {
      rejection := TryTree(expectedProject, project, expectedWorkspace, workspace);
      log := [];
      if rejection.Some? {
        log := RefuseTree(project, workspace, world);
      }
    }

    /** The checks and the swaps; a tree that is rejected is still to be disposed of. */
    method TryTree(expectedProject: ScopeSnapshot?, project: ScopeSnapshot,
      expectedWorkspace: ScopeSnapshot?, workspace: ScopeSnapshot)
      returns (rejection: Option<Rejection>)
      requires Presentable(project) && Presentable(workspace) && Parts(project) !! Parts(workspace)
      requires Parts(project) + Parts(workspace) !! Objects() + {projectSlot, workspaceSlot}
      requires projectSlot != workspaceSlot && {projectSlot, workspaceSlot} !! Objects()
      requires Mirrors(application, projectSlot.current, workspaceSlot.current)
      modifies projectSlot, workspaceSlot, project.children
      ensures Mirrors(application, old(projectSlot.current), old(workspaceSlot.current)) && Presentable(workspace)
      ensures if rejection.None? then Staged(project, workspace) else Presentable(project) || Staged(project, workspace)
      ensures projectSlot.current == if rejection.None? then project else old(projectSlot.current)
      ensures workspaceSlot.current == if rejection.None? then workspace else old(workspaceSlot.current)
      ensures rejection == if project.state != Ready then Some(NotReady(project.state))
        else if workspace.state != Ready then Some(NotReady(workspace.state))
        else if workspace.parent != Some(project.id) then Some(InvalidChildParent)
        else if old(projectSlot.current) != expectedProject then Some(ProjectExpectedOldMismatch)
        else if old(workspaceSlot.current) != expectedWorkspace then Some(WorkspaceExpectedOldMismatch)
        else None
    {
      rejection := AdmitTree(project, workspace);
      if rejection.None? {
        rejection := SwapTree(expectedProject, project, expectedWorkspace, workspace);
      }
    }

    /** Both candidates start serving, and the project takes the place of the previous one, which is retired. */
    method CommitTree(previous: ScopeSnapshot?, project: ScopeSnapshot, previousWorkspace: ScopeSnapshot?, workspace: ScopeSnapshot,
      world: World)
      returns (report: Option<ScopeReport>, log: seq<Run>)
      requires projectSlot != workspaceSlot && {projectSlot, workspaceSlot} !! Objects()
      requires projectSlot.current == project && workspaceSlot.current == workspace && Staged(project, workspace)
      requires Layout(application, project, workspace) && Layout(application, previous, previousWorkspace)
      requires Mirrors(application, previous, previousWorkspace)
      requires Parts(project) + Parts(workspace) !! Parts(previous) + Parts(previousWorkspace)
      requires world.Valid()
      modifies project, workspace, application.children, Parts(previous), Parts(previousWorkspace), world
      ensures world.Valid() && world.runs == old(world.runs) + |log|
      ensures Mirrors(application, project, workspace)
      ensures previous != null ==> PutThroughDisposal(previous) && report == previous.report && log == ReportRuns(report.value)
      ensures previous != null ==> CleanIn(world, None, previous)
      ensures previous == null ==> log == []
      ensures previousWorkspace != null && !world.passed ==> PutThroughDisposal(previousWorkspace)
      ensures previousWorkspace != null && ClaimsDisposed(previous) ==> FullyDisposed(previousWorkspace)
    {
      ActivateTree(previous, project, workspace);
      report, log := RetireBelow(project, workspace, previous, previousWorkspace, world);
    }

    method RetireBelow(project: ScopeSnapshot, workspace: ScopeSnapshot, previous: ScopeSnapshot?, previousWorkspace: ScopeSnapshot?,
      world: World)
      returns (report: Option<ScopeReport>, log: seq<Run>)
      requires Mirrors(application, project, workspace) && Layout(application, previous, previousWorkspace)
      requires previous != null ==> Serving(previous) && previous.children.items == Only(previousWorkspace)
      requires previousWorkspace != null ==> Serving(previousWorkspace) && previousWorkspace.children.items == []
      requires Parts(project) + Parts(workspace) + Parts(application) !! Parts(previous) + Parts(previousWorkspace)
      requires world.Valid()
      modifies Parts(previous), Parts(previousWorkspace), world
      ensures world.Valid() && world.runs == old(world.runs) + |log|
      ensures Mirrors(application, project, workspace)
      ensures previous != null ==> PutThroughDisposal(previous) && report == previous.report && log == ReportRuns(report.value)
      ensures previous != null ==> CleanIn(world, None, previous)
      ensures previous == null ==> log == []
      ensures previousWorkspace != null && !world.passed ==> PutThroughDisposal(previousWorkspace)
      ensures previousWorkspace != null && ClaimsDisposed(previous) ==> FullyDisposed(previousWorkspace)
    {
      report, log := RetireProject(previous, previousWorkspace, world);
    }

    method ActivateTree(previous: ScopeSnapshot?, project: ScopeSnapshot, workspace: ScopeSnapshot)
      requires Staged(project, workspace) && Layout(application, project, workspace)
      requires Serving(application) && application.children.items == Only(previous)
      modifies project, workspace, application.children
      ensures Mirrors(application, project, workspace)
    {
      var active := project.MarkActive();
      active := workspace.MarkActive();
      application.children.Replace(previous, project);
    }

    /**
     * Publishes a project and its workspace together: both slots change and both candidates serve, or both slots
     * are as before and both candidates were put through disposal.
     */
    method PublishProjectTree(expectedProject: ScopeSnapshot?, project: ScopeSnapshot,
      expectedWorkspace: ScopeSnapshot?, workspace: ScopeSnapshot, world: World)
      returns (result: Result<Option<ScopeReport>, Rejection>, log: seq<Run>)
      requires world.Valid() && Valid() && Detached(project) && Detached(workspace) && Parts(project) !! Parts(workspace)
      requires workspace.height < project.height < application.height
      modifies projectSlot, workspaceSlot, application.children, Parts(project), Parts(workspace)
      modifies Parts(projectSlot.current), Parts(workspaceSlot.current), world
      ensures world.Valid() && world.runs == old(world.runs) + |log|
      ensures Valid()
      ensures result.Ok? <==>
        && old(project.state) == Ready && old(workspace.state) == Ready && workspace.parent == Some(project.id)
        && old(projectSlot.current) == expectedProject && old(workspaceSlot.current) == expectedWorkspace
      ensures result.Ok? ==> projectSlot.current == project && workspaceSlot.current == workspace
      ensures result.Ok? ==> expectedProject != null ==>
        && PutThroughDisposal(expectedProject) && CleanIn(world, None, expectedProject)
        && result.value == expectedProject.report && log == ReportRuns(expectedProject.report.value)
        && (expectedWorkspace != null && !world.passed ==> PutThroughDisposal(expectedWorkspace))
        && (expectedWorkspace != null && ClaimsDisposed(expectedProject) ==> FullyDisposed(expectedWorkspace))
      ensures result.Ok? && expectedProject == null ==> log == []
      ensures result.Err? ==>
        && projectSlot.current == old(projectSlot.current) && workspaceSlot.current == old(workspaceSlot.current)
        && PutThroughDisposal(project) && PutThroughDisposal(workspace) && CleanIn(world, old(workspace.report), workspace)
        && log == FirstRuns(old(workspace.report), workspace) + OwnRuns(old(project.report), project)
      ensures result.Err? ==>
        result.error == if old(project.state) != Ready then NotReady(old(project.state))
        else if old(workspace.state) != Ready then NotReady(old(workspace.state))
        else if workspace.parent != Some(project.id) then InvalidChildParent
        else if old(projectSlot.current) != expectedProject then ProjectExpectedOldMismatch
        else WorkspaceExpectedOldMismatch
    {
      var rejection, refused := StageTree(expectedProject, project, expectedWorkspace, workspace, world);
      if rejection.Some? {
        return Err(rejection.value), refused;
      }
      var report, ran := CommitTree(expectedProject, project, expectedWorkspace, workspace, world);
      return Ok(report), ran;
    }

    /** Takes the project out of its slot, unless a workspace still hangs below it. */
    method ClearProject(expected: ScopeSnapshot?, world: World)
      returns (result: Result<Option<ScopeReport>, Stale>, log: seq<Run>)
      requires Valid() && world.Valid()
      modifies projectSlot, application.children, Parts(projectSlot.current)
      modifies world
      ensures world.Valid() && world.runs == old(world.runs) + |log|
      ensures Valid() && workspaceSlot.current == old(workspaceSlot.current)
      ensures result.Ok? <==> expected == null || (workspaceSlot.current == null && old(projectSlot.current) == expected)
      ensures projectSlot.current == if result.Ok? && expected != null then null else old(projectSlot.current)
      ensures result.Ok? && expected != null ==>
        && PutThroughDisposal(expected) && CleanIn(world, None, expected)
        && result.value == expected.report && log == ReportRuns(expected.report.value)
      ensures result.Err? || expected == null ==> log == []
    {
      if expected == null {
        return Ok(None), [];
      }
      if workspaceSlot.current != null || projectSlot.current != expected {
        return Err(Stale), [];
      }
      projectSlot.current := null;
      expected.BeginQuiesce();
      application.children.Remove(expected);
      var report, ran := DisposeApart(expected, world);
      return Ok(Some(report)), ran;
    }

    method ClearWorkspace(expected: ScopeSnapshot?, world: World)
      returns (result: Result<Option<ScopeReport>, Stale>, log: seq<Run>)
      requires Valid() && world.Valid()
      modifies workspaceSlot, Parts(workspaceSlot.current)
      modifies if projectSlot.current == null then {} else {projectSlot.current.children}
      modifies world
      ensures world.Valid() && world.runs == old(world.runs) + |log|
      ensures Valid() && projectSlot.current == old(projectSlot.current)
      ensures result.Ok? <==> expected == null || old(workspaceSlot.current) == expected
      ensures workspaceSlot.current == if result.Ok? && expected != null then null else old(workspaceSlot.current)
      ensures result.Ok? && expected != null ==>
        && PutThroughDisposal(expected) && CleanIn(world, None, expected)
        && result.value == expected.report && log == ReportRuns(expected.report.value)
      ensures result.Err? || expected == null ==> log == []
    {
      if expected == null {
        return Ok(None), [];
      }
      if workspaceSlot.current != expected {
        return Err(Stale), [];
      }
      workspaceSlot.current := null;
      TakeDown(expected);
      var report, ran := DisposeApart(expected, world);
      return Ok(Some(report)), ran;
    }

    /** The workspace has left its slot; now it leaves its project's list of children. */
    method TakeDown(workspace: ScopeSnapshot)
      requires projectSlot != workspaceSlot && {projectSlot, workspaceSlot} !! Objects() + Parts(workspace)
      requires projectSlot.current != null && workspaceSlot.current == null
      requires Layout(application, projectSlot.current, workspace) && Mirrors(application, projectSlot.current, workspace)
      modifies workspace, projectSlot.current.children
      ensures Valid() && Detached(workspace) && workspace.report.None?
    {
      workspace.BeginQuiesce();
      var project := projectSlot.current;
      if project != null {
        project.children.Remove(workspace);
      }
    }
  }
}
