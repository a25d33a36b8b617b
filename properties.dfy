/** Properties that tie the reducer, the action constructors and the selectors
    together: what the rest of the UI can rely on once the effect runner has
    answered the fetches the reducer asked for. */
module ProjectProperties {
  import opened Wrappers
  import opened Records
  import opened ProjectTypes
  import opened AppState
  import opened ProjectReducer
  import opened ProjectHelpers
  import ProjectActions

  /** The actions an effect runner dispatches back, in order, after fetching
      `hashes` from a backend that serves `content`. */
  function Responses(hashes: seq<ExprHash>, content: ExprHash -> ExpressionData): (actions: seq<ProjectAction>)
    ensures |actions| == |hashes|
    ensures forall i :: 0 <= i < |hashes| ==>
      actions[i] == FetchExpressionSuccess(hashes[i], content(hashes[i]))
  {
    seq(|hashes|, i requires 0 <= i < |hashes| => FetchExpressionSuccess(hashes[i], content(hashes[i])))
  }

  /** Answering a batch stores every hash of it and touches nothing else. */
  lemma {:induction false} ResponsesFillStore(state: State, hashes: seq<ExprHash>, content: ExprHash -> ExpressionData)
    ensures var t := Run(state, Responses(hashes, content));
      && t.events == []
      && t.state.project.projectHash == state.project.projectHash
      && t.state.project.bindings == state.project.bindings
      && t.state.project.typeBindings == state.project.typeBindings
      && t.state.view == state.view && t.state.others == state.others
      && (forall h :: h in hashes ==> h in t.state.project.store && t.state.project.store[h] == content(h))
      && (forall h :: h in state.project.store && h !in hashes ==>
            h in t.state.project.store && t.state.project.store[h] == state.project.store[h])
    decreases |hashes|
  {
    if hashes != [] {
      var actions := Responses(hashes, content);
      var next := Reduce(state, actions[0]).state;
      assert actions[1..] == Responses(hashes[1..], content);
      ResponsesFillStore(next, hashes[1..], content);
      forall h | h in hashes ensures h == hashes[0] || h in hashes[1..] {
      }
    }
  }

  /** The value a name is bound to is one of the record's values. */
  lemma BoundValueIsAValue(r: Record<ExprHash>, name: string)
    requires Lookup(r, name).Some?
    ensures Lookup(r, name).value in Values(r)
  {
    var i :| 0 <= i < |r| && r[i] == (name, Lookup(r, name).value);
    assert Values(r)[i] == r[i].1;
  }

  /** Once the batch that a project snapshot asked for has been answered, every
      value binding and every type binding of the snapshot resolves to what the
      backend served for its hash. */
  lemma SnapshotResolvesOnceFetched(
    state: State, data: ProjectData, extraHashes: seq<ExprHash>, content: ExprHash -> ExpressionData,
    name: string)
    ensures var t := Reduce(state, StoreProjectData(data, extraHashes));
      var s := Run(t.state, Responses(t.events[0].hashes, content)).state;
      && (Lookup(data.pdBindings, name).Some? ==>
            FindExpressionForBinding(name, s) == Some(content(Lookup(data.pdBindings, name).value)))
      && (Lookup(data.pdTypeBindings, name).Some? ==>
            FindExpressionForTypeBinding(name, s) == Some(content(Lookup(data.pdTypeBindings, name).value)))
  {
    var t := Reduce(state, StoreProjectData(data, extraHashes));
    ResponsesFillStore(t.state, t.events[0].hashes, content);
    if Lookup(data.pdBindings, name).Some? {
      BoundValueIsAValue(data.pdBindings, name);
    }
    if Lookup(data.pdTypeBindings, name).Some? {
      BoundValueIsAValue(data.pdTypeBindings, name);
    }
  }

  /** A response for the hash a name is bound to makes that name resolve, whatever
      project the response was fetched for. */
  lemma ResponseResolvesBoundName(state: State, name: string, data: ExpressionData)
    requires Lookup(state.project.bindings, name).Some?
    ensures var s := Reduce(state, FetchExpressionSuccess(Lookup(state.project.bindings, name).value, data)).state;
      FindExpressionForBinding(name, s) == Some(data) && FindExpressionForAnyBinding(name, s) == Some(data)
  {
  }

  /** A snapshot built with the default argument asks for the hashes of its
      bindings and type bindings and for nothing else. */
  lemma DefaultSnapshotFetchesOwnHashes(state: State, data: ProjectData)
    ensures var t := Reduce(state, ProjectActions.StoreProjectData(data));
      && t.events[0] == FetchExpressions(Values(data.pdBindings) + Values(data.pdTypeBindings), data.pdHash)
      && forall h :: h in t.events[0].hashes <==> h in Values(data.pdBindings) || h in Values(data.pdTypeBindings)
  {
    assert Values(data.pdBindings) + Values(data.pdTypeBindings) + [] == Values(data.pdBindings) + Values(data.pdTypeBindings);
  }

  /** From an empty project: a snapshot binding `x` to `H1`, then the expression
      for `H1`, makes `x` resolve to it. */
  lemma SnapshotThenFetchScenario(state: State, expr: ExpressionData)
    requires state.project.bindings == [] && state.project.typeBindings == [] && state.project.store == map[]
    ensures var data := ProjectData("Hp", [("x", "H1")], []);
      var t1 := Reduce(state, ProjectActions.StoreProjectData(data));
      var t2 := Reduce(t1.state, FetchExpressionSuccess("H1", expr));
      && t1.state.project.projectHash == "Hp"
      && t1.state.project.bindings == [("x", "H1")]
      && t1.events == [FetchExpressions(["H1"], "Hp"), SaveToSessionStorage("Hp")]
      && FindExpressionForBinding("x", t2.state) == Some(expr)
  {
    var data := ProjectData("Hp", [("x", "H1")], []);
    assert Values(data.pdBindings) == ["H1"] by {
      assert Values(data.pdBindings[1..]) == [];
    }
    assert Values(data.pdTypeBindings) == [];
  }
}
