/** The project reducer: a pure transition from a state and an action to the next
    state and the events the effect runner is to perform. */
module ProjectReducer {
  import opened Records
  import opened ProjectTypes
  import opened AppState

  /** What an event reducer returns (`stateOnly`, `stateAndEvent`, `stateAndEvents`):
      the next state and the intents for the effect runner, in order. */
  datatype Transition = Transition(state: State, events: seq<ProjectEvent>)

  /** `projectL.set(p)(state)`: a lens on the `project` field. */
  function SetProject(p: ProjectState, state: State): (r: State)
    ensures r.project == p
    ensures r.view == state.view && r.others == state.others
  {
    state.(project := p)
  }

  /** Setting what is there changes nothing; the last set wins. */
  lemma ProjectLensLaws(p: ProjectState, q: ProjectState, state: State)
    ensures SetProject(state.project, state) == state
    ensures SetProject(q, SetProject(p, state)) == SetProject(q, state)
  {
  }

  /** The hashes that `StoreProjectData` asks for in one batch: the values of the
      bindings, then of the type bindings, then the extra hashes. It is a
      concatenation, so a hash may occur more than once. */
  function FetchList(data: ProjectData, extraHashes: seq<ExprHash>): (hs: seq<ExprHash>)
    ensures |hs| == |data.pdBindings| + |data.pdTypeBindings| + |extraHashes|
    ensures forall h :: h in hs <==>
      h in Values(data.pdBindings) || h in Values(data.pdTypeBindings) || h in extraHashes
    ensures hs[..|data.pdBindings|] == Values(data.pdBindings)
    ensures hs[|data.pdBindings|..|data.pdBindings| + |data.pdTypeBindings|] == Values(data.pdTypeBindings)
    ensures hs[|hs| - |extraHashes|..] == extraHashes
  {
    Values(data.pdBindings) + Values(data.pdTypeBindings) + extraHashes
  }

  /** `projectReducer(state, action)` */
  function Reduce(state: State, action: ProjectAction): (t: Transition)
    // only the project slice is ever replaced
    ensures t.state.view == state.view && t.state.others == state.others
    // the store loses no key, and only a fetched expression replaces an entry
    ensures state.project.store.Keys <= t.state.project.store.Keys
    ensures forall h :: h in state.project.store && !(action.FetchExpressionSuccess? && action.exprHash == h) ==>
      t.state.project.store[h] == state.project.store[h]
    // only a new project snapshot replaces the bindings
    ensures !action.StoreProjectData? ==>
      t.state.project.bindings == state.project.bindings &&
      t.state.project.typeBindings == state.project.typeBindings
    // every event that names a project names the one current after the transition
    ensures forall e :: e in t.events ==> e.CreateProject? || e.projectHash == t.state.project.projectHash
  {
    match action
    case Initialise =>
      Transition(state, [ListBindings(state.project.projectHash)])
    case CreateProject =>
      Transition(state, [ProjectEvent.CreateProject])
    case StoreProjectData(data, extraHashes) =>
      var project := state.project.(
        projectHash := data.pdHash,
        bindings := data.pdBindings,
        typeBindings := data.pdTypeBindings);
      Transition(
        SetProject(project, state),
        [FetchExpressions(FetchList(data, extraHashes), data.pdHash),
         SaveToSessionStorage(data.pdHash)])
    case FetchExpressionsForHashes(hashes) =>
      Transition(state, [FetchExpressions(hashes, state.project.projectHash)])
    case StoreProjectHash(projectHash) =>
      Transition(SetProject(state.project.(projectHash := projectHash), state), [ListBindings(projectHash)])
    case FetchExpressionSuccess(exprHash, storeExpression) =>
      var store := state.project.store[exprHash := storeExpression];
      Transition(SetProject(state.project.(store := store), state), [])
    case OtherAction(_) =>
      Transition(state, [])
  }

  lemma InitialiseStep(state: State)
    ensures Reduce(state, Initialise) == Transition(state, [ListBindings(state.project.projectHash)])
  {
  }

  lemma CreateProjectStep(state: State)
    ensures Reduce(state, ProjectAction.CreateProject) == Transition(state, [ProjectEvent.CreateProject])
  {
  }

  /** A snapshot replaces the project hash and both binding records, keeps the store,
      and asks for every hash the snapshot refers to and for the hash to be saved. */
  lemma StoreProjectDataStep(state: State, data: ProjectData, extraHashes: seq<ExprHash>)
    ensures var t := Reduce(state, StoreProjectData(data, extraHashes));
      && t.state.project == ProjectState(data.pdHash, data.pdBindings, data.pdTypeBindings, state.project.store)
      && t.state.view == state.view && t.state.others == state.others
      && t.events == [FetchExpressions(FetchList(data, extraHashes), data.pdHash), SaveToSessionStorage(data.pdHash)]
  {
  }

  lemma FetchExpressionsForHashesStep(state: State, hashes: seq<ExprHash>)
    ensures Reduce(state, FetchExpressionsForHashes(hashes))
      == Transition(state, [FetchExpressions(hashes, state.project.projectHash)])
  {
  }

  lemma StoreProjectHashStep(state: State, projectHash: ExprHash)
    ensures var t := Reduce(state, StoreProjectHash(projectHash));
      && t.state.project == state.project.(projectHash := projectHash)
      && t.state.project.bindings == state.project.bindings
      && t.state.project.typeBindings == state.project.typeBindings
      && t.state.project.store == state.project.store
      && t.events == [ListBindings(projectHash)]
  {
  }

  /** A fetched expression is stored under its hash (replacing whatever was there,
      whatever the current project is), and nothing else changes. */
  lemma FetchExpressionSuccessStep(state: State, exprHash: ExprHash, data: ExpressionData)
    ensures var t := Reduce(state, FetchExpressionSuccess(exprHash, data));
      && t.state.project.store.Keys == state.project.store.Keys + {exprHash}
      && t.state.project.store[exprHash] == data
      && (forall h :: h in state.project.store && h != exprHash ==> t.state.project.store[h] == state.project.store[h])
      && t.state.project.projectHash == state.project.projectHash
      && t.state.project.bindings == state.project.bindings
      && t.state.project.typeBindings == state.project.typeBindings
      && t.events == []
  {
  }

  /** A duplicated response is harmless. */
  lemma FetchExpressionSuccessIdempotent(state: State, exprHash: ExprHash, data: ExpressionData)
    ensures var a := FetchExpressionSuccess(exprHash, data);
      Reduce(Reduce(state, a).state, a) == Reduce(state, a)
  {
  }

  /** Responses for different hashes may arrive in either order. */
  lemma FetchExpressionSuccessCommute(
    state: State, h1: ExprHash, d1: ExpressionData, h2: ExprHash, d2: ExpressionData)
    requires h1 != h2
    ensures var a1, a2 := FetchExpressionSuccess(h1, d1), FetchExpressionSuccess(h2, d2);
      Reduce(Reduce(state, a1).state, a2) == Reduce(Reduce(state, a2).state, a1)
  {
    var m := state.project.store;
    assert m[h1 := d1][h2 := d2] == m[h2 := d2][h1 := d1];
  }

  lemma OtherActionStep(state: State, tag: string)
    ensures Reduce(state, OtherAction(tag)) == Transition(state, [])
  {
  }

  /** A transition that makes the bindings refer to a hash they did not refer to
      before also asks for that hash to be fetched. */
  lemma NewReferencesAreRequested(state: State, action: ProjectAction, h: ExprHash)
    requires h in Values(Reduce(state, action).state.project.bindings) ||
             h in Values(Reduce(state, action).state.project.typeBindings)
    requires h !in Values(state.project.bindings) && h !in Values(state.project.typeBindings)
    ensures exists e :: e in Reduce(state, action).events && e.FetchExpressions? && h in e.hashes
  {
    var t := Reduce(state, action);
    assert t.events[0] in t.events;
  }

  /** Reduces the actions one after another, collecting the events in order. */
  function Run(state: State, actions: seq<ProjectAction>): (t: Transition)
    decreases |actions|
  {
    if actions == [] then Transition(state, [])
    else
      var first := Reduce(state, actions[0]);
      var rest := Run(first.state, actions[1..]);
      Transition(rest.state, first.events + rest.events)
  }

  /** Along any run, the store only gains keys. */
  lemma {:induction false} RunNeverDropsStoreKeys(state: State, actions: seq<ProjectAction>)
    ensures state.project.store.Keys <= Run(state, actions).state.project.store.Keys
    decreases |actions|
  {
    if actions != [] {
      RunNeverDropsStoreKeys(Reduce(state, actions[0]).state, actions[1..]);
    }
  }

  /** The store agrees with what the backend serves for each hash. */
  ghost predicate ContentAddressed(store: map<ExprHash, ExpressionData>, content: ExprHash -> ExpressionData) {
    forall h :: h in store ==> store[h] == content(h)
  }

  /** Every response in the run carries what the backend serves for its hash. */
  ghost predicate ResponsesAgree(actions: seq<ProjectAction>, content: ExprHash -> ExpressionData) {
    forall i :: 0 <= i < |actions| && actions[i].FetchExpressionSuccess? ==>
      actions[i].storeExpression == content(actions[i].exprHash)
  }

  /** The reducer never checks for a conflicting entry; it keeps the store
      content-addressed only as long as the responses are. */
  lemma {:induction false} RunKeepsContentAddressed(
    state: State, actions: seq<ProjectAction>, content: ExprHash -> ExpressionData)
    requires ContentAddressed(state.project.store, content)
    requires ResponsesAgree(actions, content)
    ensures ContentAddressed(Run(state, actions).state.project.store, content)
    decreases |actions|
  {
    if actions != [] {
      var next := Reduce(state, actions[0]).state;
      assert ContentAddressed(next.project.store, content) by {
        assert ResponsesAgree(actions, content) && actions[0] == actions[0];
        if actions[0].FetchExpressionSuccess? {
          assert actions[0].storeExpression == content(actions[0].exprHash);
        }
      }
      assert ResponsesAgree(actions[1..], content) by {
        forall i | 0 <= i < |actions[1..]| && actions[1..][i].FetchExpressionSuccess?
          ensures actions[1..][i].storeExpression == content(actions[1..][i].exprHash)
        {
          assert actions[1..][i] == actions[i + 1];
        }
      }
      RunKeepsContentAddressed(next, actions[1..], content);
    }
  }

  /** A conflicting response silently replaces the stored expression. */
  lemma ConflictOverwrites(state: State, exprHash: ExprHash, data: ExpressionData)
    requires exprHash in state.project.store && state.project.store[exprHash] != data
    ensures Reduce(state, FetchExpressionSuccess(exprHash, data)).state.project.store[exprHash] == data
    ensures Reduce(state, FetchExpressionSuccess(exprHash, data)).events == []
  {
  }
}
