/** The fluent `ProjectBuilder` used by the tests.

    A builder owns one `Project`, created when the builder is; each `Add*`
    passes its argument to one `Project` setter and returns the builder itself,
    and `Build` hands out the owned project.  The `Project` setters are not
    part of this model: a project is its identity plus the setter calls it has
    received, and whether a setter raises an error is a caller-supplied
    function `rejects`. */
module ProjectBuilder {
  import opened Wrappers

  /** The identity of an object on the heap. */
  type Ref = nat

  /** `ProjectType`, by the enum's underlying value. */
  datatype ProjectType = ProjectType(value: int)

  datatype Category = Category(name: string)

  datatype Income = Income(name: string, amount: real)

  /** A call of one `Project` setter with its argument. */
  datatype SetterCall =
    | SetName(name: string)
    | SetType(projectType: ProjectType)
    | SetCategories(categories: seq<Category>)
    | SetIncomes(incomes: seq<Income>)

  /** The error a `Project` setter raises. */
  datatype SetterError = SetterError(message: string, property: string)

  /** A project object: its identity and the setter calls it has received, in order. */
  datatype Project = Project(id: Ref, received: seq<SetterCall>)

  /** A builder object: its identity and the project it owns. */
  datatype Builder = Builder(id: Ref, project: Project)

  /** The constructor: a new builder `builderId` owning a new, default-constructed project `projectId`. */
  function NewBuilder(builderId: Ref, projectId: Ref): (b: Builder)
    ensures b.id == builderId && b.project.id == projectId && b.project.received == []
  {
    Builder(builderId, Project(projectId, []))
  }

  /** Passes one call to the owned project and returns the same builder, or
      propagates the setter's error. */
  function Delegate(b: Builder, call: SetterCall, rejects: SetterCall -> Option<SetterError>): (r: Result<Builder, SetterError>)
    ensures r.Failure? <==> rejects(call).Some?
    ensures r.Failure? ==> r.error == rejects(call).value
    ensures r.Success? ==> r.value.id == b.id && r.value.project.id == b.project.id
    ensures r.Success? ==> r.value.project.received == b.project.received + [call]
  {
    match rejects(call)
    case Some(err) => Failure(err)
    case None => Success(b.(project := b.project.(received := b.project.received + [call])))
  }

  function AddName(b: Builder, name: string, rejects: SetterCall -> Option<SetterError>): (r: Result<Builder, SetterError>)
    ensures r.Success? <==> rejects(SetName(name)).None?
    ensures r.Failure? ==> r.error == rejects(SetName(name)).value
    ensures r.Success? ==> r.value.id == b.id && r.value.project.id == b.project.id
    ensures r.Success? ==> r.value.project.received == b.project.received + [SetName(name)]
  {
    Delegate(b, SetName(name), rejects)
  }

  function AddType(b: Builder, projectType: ProjectType, rejects: SetterCall -> Option<SetterError>): (r: Result<Builder, SetterError>)
    ensures r.Success? <==> rejects(SetType(projectType)).None?
    ensures r.Failure? ==> r.error == rejects(SetType(projectType)).value
    ensures r.Success? ==> r.value.id == b.id && r.value.project.id == b.project.id
    ensures r.Success? ==> r.value.project.received == b.project.received + [SetType(projectType)]
  {
    Delegate(b, SetType(projectType), rejects)
  }

  function AddCategories(b: Builder, categories: seq<Category>, rejects: SetterCall -> Option<SetterError>): (r: Result<Builder, SetterError>)
    ensures r.Success? <==> rejects(SetCategories(categories)).None?
    ensures r.Failure? ==> r.error == rejects(SetCategories(categories)).value
    ensures r.Success? ==> r.value.id == b.id && r.value.project.id == b.project.id
    ensures r.Success? ==> r.value.project.received == b.project.received + [SetCategories(categories)]
  {
    Delegate(b, SetCategories(categories), rejects)
  }

  function AddIncomes(b: Builder, incomes: seq<Income>, rejects: SetterCall -> Option<SetterError>): (r: Result<Builder, SetterError>)
    ensures r.Success? <==> rejects(SetIncomes(incomes)).None?
    ensures r.Failure? ==> r.error == rejects(SetIncomes(incomes)).value
    ensures r.Success? ==> r.value.id == b.id && r.value.project.id == b.project.id
    ensures r.Success? ==> r.value.project.received == b.project.received + [SetIncomes(incomes)]
  {
    Delegate(b, SetIncomes(incomes), rejects)
  }

  /** `Build`: the owned project, with no check of its own.  In the source it
      is the very object the builder holds; here a project is a value, so the
      result is that object's state when `Build` is called. */
  function Build(b: Builder): (p: Project)
    ensures p.id == b.project.id
    ensures p.received == b.project.received
  {
    b.project
  }

  /** A chain of `Add*` calls, each named by the setter call it makes. */
  function Chain(b: Builder, calls: seq<SetterCall>, rejects: SetterCall -> Option<SetterError>): Result<Builder, SetterError>
    decreases |calls|
  {
    if |calls| == 0 then Success(b)
    else
      match Delegate(b, calls[0], rejects)
      case Failure(err) => Failure(err)
      case Success(next) => Chain(next, calls[1..], rejects)
  }

  /** A chain that no setter rejects yields the same builder, and `Build` then
      returns the project created with it, which has received exactly the
      chain's calls, in order, with their arguments unchanged. */
  lemma {:induction false} ChainDelegatesInOrder(b: Builder, calls: seq<SetterCall>, rejects: SetterCall -> Option<SetterError>)
    requires forall i :: 0 <= i < |calls| ==> rejects(calls[i]).None?
    ensures Chain(b, calls, rejects).Success?
    ensures Chain(b, calls, rejects).value.id == b.id
    ensures Build(Chain(b, calls, rejects).value).id == b.project.id
    ensures Build(Chain(b, calls, rejects).value).received == b.project.received + calls
    decreases |calls|
  {
    if |calls| > 0 {
      var next := Delegate(b, calls[0], rejects).value;
      assert forall i :: 0 <= i < |calls[1..]| ==> calls[1..][i] == calls[i + 1];
      ChainDelegatesInOrder(next, calls[1..], rejects);
      assert b.project.received + [calls[0]] + calls[1..] == b.project.received + calls;
    }
  }

  /** A chain with a rejected call raises the error of the first one, so the
      test's `Build` is never reached. */
  lemma {:induction false} ChainStopsAtFirstRejection(b: Builder, calls: seq<SetterCall>, rejects: SetterCall -> Option<SetterError>, k: nat)
    requires k < |calls| && rejects(calls[k]).Some?
    requires forall i :: 0 <= i < k ==> rejects(calls[i]).None?
    ensures Chain(b, calls, rejects) == Failure(rejects(calls[k]).value)
    decreases k
  {
    if k > 0 {
      var next := Delegate(b, calls[0], rejects).value;
      assert forall i :: 0 <= i < k - 1 ==> calls[1..][i] == calls[i + 1];
      ChainStopsAtFirstRejection(next, calls[1..], rejects, k - 1);
    }
  }

  /** Whatever calls a successful chain made, it returns the builder it
      started from, still owning the same project: every `Add*` returns `this`. */
  lemma {:induction false} ChainKeepsIdentity(b: Builder, calls: seq<SetterCall>, rejects: SetterCall -> Option<SetterError>)
    requires Chain(b, calls, rejects).Success?
    ensures Chain(b, calls, rejects).value.id == b.id
    ensures Chain(b, calls, rejects).value.project.id == b.project.id
    decreases |calls|
  {
    if |calls| > 0 {
      ChainKeepsIdentity(Delegate(b, calls[0], rejects).value, calls[1..], rejects);
    }
  }

  /** A new builder followed by a chain that no setter rejects builds the new
      project, which has received exactly the chain's calls. */
  lemma NewBuilderChain(builderId: Ref, projectId: Ref, calls: seq<SetterCall>, rejects: SetterCall -> Option<SetterError>)
    requires forall i :: 0 <= i < |calls| ==> rejects(calls[i]).None?
    ensures Chain(NewBuilder(builderId, projectId), calls, rejects).Success?
    ensures Build(Chain(NewBuilder(builderId, projectId), calls, rejects).value) == Project(projectId, calls)
  {
    ChainDelegatesInOrder(NewBuilder(builderId, projectId), calls, rejects);
  }
}
