/** The constructors of project actions that the rest of the UI dispatches. */
module ProjectActions {
  import T = ProjectTypes

  /** `storeProjectData(data, extraHashes = [])` */
  function StoreProjectData(data: T.ProjectData, extraHashes: seq<T.ExprHash> := []): (a: T.ProjectAction)
    ensures a.StoreProjectData?
    ensures a.data == data && a.extraHashes == extraHashes
  {
    T.ProjectAction.StoreProjectData(data, extraHashes)
  }

  /** `fetchExpressionsForHashes(hashes)` */
  function FetchExpressionsForHashes(hashes: seq<T.ExprHash>): (a: T.ProjectAction)
    ensures a.FetchExpressionsForHashes?
    ensures a.hashes == hashes
  {
    T.FetchExpressionsForHashes(hashes)
  }

  /** Leaving out the second argument asks for no hashes beyond the project's own. */
  lemma StoreProjectDataDefault(data: T.ProjectData)
    ensures StoreProjectData(data) == StoreProjectData(data, [])
    ensures StoreProjectData(data).extraHashes == []
  {
  }
}
