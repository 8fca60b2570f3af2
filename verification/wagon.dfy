/** The exceptions the repository facade reports to the build tool, and the
    fixed messages it attaches to them. */
module Wagon {
  import opened Outcomes

  /** An exception wrapped as the cause of another, identified by its
      message, which Java allows to be null. */
  datatype Cause = Cause(message: Option<string>)

  /** The wagon exception taxonomy.
      - `Authentication`: `AuthenticationException`, raised only by `connect`;
        `cause` is the exception it wraps, if any.
      - `ResourceDoesNotExist`: `ResourceDoesNotExistException`.
      - `TransferFailed`: `TransferFailedException`.
      - `StoreException`: an `AmazonS3Exception` that the facade does not
        translate and that escapes to the caller unchanged (from `list`).
      - `NullPointer`: a `NullPointerException`; only the as-written connect
        error translation can raise it. */
  datatype WagonError =
    | Authentication(message: string, cause: Option<Cause>)
    | ResourceDoesNotExist(message: string)
    | TransferFailed(message: string)
    | StoreException(message: string)
    | NullPointer

  /** The fragment of the SDK's message that identifies a missing region. */
  const RegionChainMessage := "Unable to find a region via the region provider chain"

  /** The remediation message raised when no region can be found (spelling as in the source). */
  const ProvideRegionMessage := "Please provide a region as a property or an environmmental variable using AWS_DEFAULT_REGION"

  /** The generic authentication failure message. */
  const CouldNotAuthenticateMessage := "Could not authenticate"

  /** Raised by `copy` when the object cannot be fetched. */
  const ResourceMissingMessage := "Resource does not exist"

  function DownloadFailedMessage(key: string): string {
    "Could not download resource " + key
  }

  function UploadFailedMessage(fileName: string): string {
    "Could not transfer file " + fileName
  }

  function RetrieveFailedMessage(key: string): string {
    "Could not retrieve key " + key
  }
}
