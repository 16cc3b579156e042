/** The tools the server has (internal/mcp/scope.go lists them all), and how a call of one can end. */
module Tools {
  datatype Tool =
    | GetPullRequest | ListPullRequests | CreatePullRequest | UpdatePullRequest | ListPrComments | GetPrDiff
    | GetFileContent | AddPrComment | PreparePrReview | MergePullRequest | EnableAutoMerge | DisableAutoMerge
    | SearchRepositories | GetRepositoryCloneInfo | ListBranches | ResolveRef | ListTags | CreateTag
    | GetBuildStatus | SetBuildStatus | ListRequiredBuilds | ListCommits | GetCommit | CompareRefs
    | Show | RefreshView | SuggestFormValues
    | OtherTool(name: string)

  /** A result that asks for input, a good one, a tool's error, or a failure of the request. */
  datatype Result = Asks | Fine | ToolError | Failed
}
