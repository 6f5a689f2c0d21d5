/** The store's typed errors, and the errors of the Kubernetes API that it passes on. */
module Errors {
  datatype ApiError = AlreadyExists | NotFoundInCluster | Unavailable(code: int)

  datatype ConflictReason = DuplicateId | DuplicateName | ManyDeployments | ManyPods

  datatype StoreError =
    | NotFound(id: string)
    | Conflict(reason: ConflictReason)
    | InvalidArgument
    | Api(error: ApiError)
}
