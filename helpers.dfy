/** Selectors over the project slice, and the session-storage adapter that keeps
    the current project's identity across reloads. */
module ProjectHelpers {
  import opened Wrappers
  import opened Records
  import opened ProjectTypes
  import opened AppState

  /** The expression a value binding refers to, if the name is bound and its hash
      has been fetched. */
  function FindExpressionForBinding(bindingName: string, state: State): (o: Option<ExpressionData>)
    ensures bindingName !in Keys(state.project.bindings) ==> o == None
    ensures bindingName in Keys(state.project.bindings) ==>
      var h := Lookup(state.project.bindings, bindingName).value;
      (h !in state.project.store ==> o == None) &&
      (h in state.project.store ==> o == Some(state.project.store[h]))
  {
    match Lookup(state.project.bindings, bindingName)
    case None => None
    case Some(exprHash) =>
      if exprHash in state.project.store then Some(state.project.store[exprHash]) else None
  }

  /** The same lookup, through the type bindings. */
  function FindExpressionForTypeBinding(bindingName: string, state: State): (o: Option<ExpressionData>)
    ensures bindingName !in Keys(state.project.typeBindings) ==> o == None
    ensures bindingName in Keys(state.project.typeBindings) ==>
      var h := Lookup(state.project.typeBindings, bindingName).value;
      (h !in state.project.store ==> o == None) &&
      (h in state.project.store ==> o == Some(state.project.store[h]))
  {
    match Lookup(state.project.typeBindings, bindingName)
    case None => None
    case Some(exprHash) =>
      if exprHash in state.project.store then Some(state.project.store[exprHash]) else None
  }

  /** The value binding's expression if it resolves, otherwise the type binding's. */
  function FindExpressionForAnyBinding(bindingName: string, state: State): (o: Option<ExpressionData>)
    ensures FindExpressionForBinding(bindingName, state).Some? ==>
      o == FindExpressionForBinding(bindingName, state)
    ensures FindExpressionForBinding(bindingName, state).None? ==>
      o == FindExpressionForTypeBinding(bindingName, state)
  {
    match FindExpressionForBinding(bindingName, state)
    case Some(data) => Some(data)
    case None => FindExpressionForTypeBinding(bindingName, state)
  }

  /** A value binding whose hash has not been fetched yet gives way to a type
      binding of the same name. */
  lemma AnyBindingFallsBackOnUnfetchedHash(bindingName: string, state: State)
    requires Lookup(state.project.bindings, bindingName).Some?
    requires Lookup(state.project.bindings, bindingName).value !in state.project.store
    ensures FindExpressionForAnyBinding(bindingName, state) == FindExpressionForTypeBinding(bindingName, state)
  {
  }

  /** The stored expression for a hash, if it has been fetched. */
  function FindExpression(exprHash: ExprHash, state: State): (o: Option<ExpressionData>)
    ensures o.Some? <==> exprHash in state.project.store
    ensures o.Some? ==> o.value == state.project.store[exprHash]
  {
    if exprHash in state.project.store then Some(state.project.store[exprHash]) else None
  }

  /** A direct lookup reads the store and nothing else of the state. */
  lemma FindExpressionReadsOnlyStore(exprHash: ExprHash, s1: State, s2: State)
    requires s1.project.store == s2.project.store
    ensures FindExpression(exprHash, s1) == FindExpression(exprHash, s2)
  {
  }

  /** The part of a project that is kept across reloads. */
  datatype Project = Project(hash: ExprHash)

  /** The one key under which the project is kept. */
  const SessionStorageKey: string := "project"

  /** The browser's session-scoped key-value store. */
  class SessionStorage {
    var items: map<string, string>

    constructor ()
      ensures items == map[]
    {
      items := map[];
    }

    /** `sessionStorage.setItem(key, value)` */
    method SetItem(key: string, value: string)
      modifies this
      ensures items == old(items)[key := value]
    {
      items := items[key := value];
    }
  }

  /** `safeSessionStorageGet(key)`: the stored string, or nothing for a missing key. */
  method SafeSessionStorageGet(storage: SessionStorage, key: string) returns (o: Option<string>)
    ensures o.None? <==> key !in storage.items
    ensures o.Some? ==> o.value == storage.items[key]
  {
    if key in storage.items {
      o := Some(storage.items[key]);
    } else {
      o := None;
    }
  }

  /** `safeDecode(str)`, where `parse` stands for `JSON.parse` and its `Failure`
      for the exception it throws: the exception becomes nothing, and whatever
      parses is passed on unchecked. */
  function SafeDecode<A>(parse: string -> Result<A, string>, str: string): (o: Option<A>)
    ensures o.None? <==> parse(str).Failure?
    ensures o.Some? ==> o.value == parse(str).value
  {
    match parse(str)
    case Success(a) => Some(a)
    case Failure(_) => None
  }

  /** What `projectGet()` finds in a session store holding `items`. */
  function StoredProject(items: map<string, string>, parse: string -> Result<Project, string>): (o: Option<Project>)
    ensures SessionStorageKey !in items ==> o == None
    ensures SessionStorageKey in items ==> o == SafeDecode(parse, items[SessionStorageKey])
  {
    if SessionStorageKey in items then SafeDecode(parse, items[SessionStorageKey]) else None
  }

  /** `projectGet()` */
  method ProjectGet(storage: SessionStorage, parse: string -> Result<Project, string>) returns (o: Option<Project>)
    ensures o == StoredProject(storage.items, parse)
  {
    var str := SafeSessionStorageGet(storage, SessionStorageKey);
    match str
    case None => o := None;
    case Some(s) => o := SafeDecode(parse, s);
  }

  /** `projectSet(project)`, where `stringify` stands for `JSON.stringify`. */
  method ProjectSet(storage: SessionStorage, stringify: Project -> string, project: Project)
    modifies storage
    ensures storage.items == old(storage.items)[SessionStorageKey := stringify(project)]
  {
    storage.SetItem(SessionStorageKey, stringify(project));
  }

  /** A payload that does not parse reads as no project at all. */
  lemma CorruptPayloadReadsAsNothing(items: map<string, string>, parse: string -> Result<Project, string>)
    requires SessionStorageKey in items && parse(items[SessionStorageKey]).Failure?
    ensures StoredProject(items, parse) == None
  {
  }

  /** When the codec round-trips, what was written last is what is read back,
      whatever the store held before. */
  lemma SetThenGet(
    items: map<string, string>, stringify: Project -> string,
    parse: string -> Result<Project, string>, project: Project)
    requires parse(stringify(project)) == Success(project)
    ensures StoredProject(items[SessionStorageKey := stringify(project)], parse) == Some(project)
  {
  }

  /** Writing other keys of the session store leaves the project where it was. */
  lemma OtherKeysDoNotMatter(
    items: map<string, string>, key: string, value: string, parse: string -> Result<Project, string>)
    requires key != SessionStorageKey
    ensures StoredProject(items[key := value], parse) == StoredProject(items, parse)
  {
  }

  /** Saving a project and reading it back: the last write wins. */
  method SaveTwiceThenLoad(
    storage: SessionStorage, stringify: Project -> string,
    parse: string -> Result<Project, string>, first: Project, second: Project)
    returns (o: Option<Project>)
    requires parse(stringify(second)) == Success(second)
    modifies storage
    ensures o == Some(second)
    ensures forall k :: k != SessionStorageKey ==> (k in storage.items <==> k in old(storage.items))
  {
    ProjectSet(storage, stringify, first);
    ProjectSet(storage, stringify, second);
    o := ProjectGet(storage, parse);
    SetThenGet(old(storage.items), stringify, parse, second);
  }
}
