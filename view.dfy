/** The screens of the editor and the stack of them that the view slice holds. */
module ViewTypes {

  /** The contents of one editor pane; not looked into here. */
  type EditorState

  datatype Screen =
    | ScratchScreen(editor: EditorState)
    | EditScreen(bindingName: string, editor: EditorState)
    | NewExpressionScreen(editor: EditorState)
    | NewTestScreen(editor: EditorState)
    | TypeSearchScreen
    | NewTypeScreen(editor: EditorState)

  /** `NE.NonEmptyArray<Screen>`: the current screen first, then the ones beneath. */
  type ScreenStack = s: seq<Screen> | |s| > 0 witness [TypeSearchScreen]

  datatype ViewState = ViewState(stack: ScreenStack)
}

/** Read-only projections of the view slice. */
module ViewSelectors {
  import opened Wrappers
  import opened ViewTypes
  import opened AppState

  /** `NE.fromArray`: a possibly empty array as a non-empty one, if it is one. */
  function FromArray(s: seq<Screen>): (o: Option<ScreenStack>)
    ensures o.None? <==> s == []
    ensures o.Some? ==> o.value == s
  {
    if s == [] then None else Some(s)
  }

  /** The screen beneath the current one, if there is one. */
  function GetLastScreen(state: State): (o: Option<Screen>)
    ensures o.None? <==> |state.view.stack| == 1
    ensures |state.view.stack| >= 2 ==> o == Some(state.view.stack[1])
  {
    match FromArray(state.view.stack[1..])
    case None => None
    case Some(rest) => Some(rest[0])
  }

  /** The current screen; the stack is never empty. */
  function GetCurrentScreen(state: State): (r: Screen)
    ensures r in state.view.stack
    ensures r == state.view.stack[0]
  {
    state.view.stack[0]
  }

  /** Both selectors look at the first two screens of the stack and at nothing else
      in the state. */
  lemma SelectorsReadTopTwo(s1: State, s2: State)
    requires s1.view.stack[0] == s2.view.stack[0]
    requires (|s1.view.stack| == 1) == (|s2.view.stack| == 1)
    requires |s1.view.stack| >= 2 ==> s1.view.stack[1] == s2.view.stack[1]
    ensures GetCurrentScreen(s1) == GetCurrentScreen(s2)
    ensures GetLastScreen(s1) == GetLastScreen(s2)
  {
  }
}
