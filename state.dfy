/** The project slice of the application state, the actions the project reducer
    accepts and the events it asks the effect runner to perform. */
module ProjectTypes {
  import opened Records

  /** A content-derived identifier of an expression. */
  type ExprHash = string

  /** The resolved form of one expression, as the backend sends it. Its fields are
      never read by the reducer or the selectors. */
  type ExpressionData

  /** A snapshot of a project, delivered by the backend after a change. */
  datatype ProjectData = ProjectData(
    pdHash: ExprHash,
    pdBindings: Record<ExprHash>,
    pdTypeBindings: Record<ExprHash>)

  datatype ProjectState = ProjectState(
    projectHash: ExprHash,
    bindings: Record<ExprHash>,
    typeBindings: Record<ExprHash>,
    store: map<ExprHash, ExpressionData>)

  datatype ProjectAction =
    | Initialise
    | CreateProject
    | StoreProjectData(data: ProjectData, extraHashes: seq<ExprHash>)
    | FetchExpressionsForHashes(hashes: seq<ExprHash>)
    | StoreProjectHash(projectHash: ExprHash)
    | FetchExpressionSuccess(exprHash: ExprHash, storeExpression: ExpressionData)
      /** any action of another slice of the application, by its `type` tag */
    | OtherAction(tag: string)

  datatype ProjectEvent =
    | ListBindings(projectHash: ExprHash)
    | CreateProject
    | FetchExpressions(hashes: seq<ExprHash>, projectHash: ExprHash)
    | SaveToSessionStorage(projectHash: ExprHash)
}

/** The root application state: the project slice, the view slice, and the other
    slices (the editor among them), which the project reducer never looks into. */
module AppState {
  import opened ProjectTypes
  import opened ViewTypes

  type OtherSlices

  datatype State = State(project: ProjectState, view: ViewState, others: OtherSlices)
}
