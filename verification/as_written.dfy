/** Two places where the source's code falls short of its evident intent,
    each modelled as written and compared with the corrected definition the
    rest of the model uses (`StorageRepository.ConnectFailure` and
    `StorageRepository.Copy`). */
module AsWritten {
  import opened Outcomes
  import opened Text
  import opened S3Store
  import opened Wagon
  import opened StorageRepository

  /** The catch block of `connect` as written: `getMessage().contains(...)`
      dereferences the message, so a failure whose message is null escapes
      as a NullPointerException instead of an AuthenticationException. */
  function ConnectFailureAsWritten(message: Option<string>): (e: WagonError)
    ensures message.None? ==> e == NullPointer
    ensures message.Some? ==> e.Authentication?
  {
    match message
    case None => NullPointer
    case Some(m) =>
      if Contains(m, RegionChainMessage) then Authentication(ProvideRegionMessage, None)
      else Authentication(CouldNotAuthenticateMessage, Some(Cause(message)))
  }

  /** A failure without a message breaks the as-written translation, while
      the corrected one reports the generic authentication error; on every
      failure that carries a message the two agree. */
  lemma NullMessageEscapesConnect(message: Option<string>)
    ensures message.None? ==>
      && !ConnectFailureAsWritten(message).Authentication?
      && ConnectFailure(message) == Authentication(CouldNotAuthenticateMessage, Some(Cause(None)))
    ensures message.Some? ==> ConnectFailureAsWritten(message) == ConnectFailure(message)
  {
  }

  /** `copy` as written. The try-with-resources list opens the destination
      file first and only then registers the object's content stream, which
      `getObject` already holds open; if the destination cannot be opened,
      that stream is never closed. */
  function CopyAsWritten(
    repo: Repository,
    store: Store,
    resourceName: string,
    fetch: ServiceFault,
    destinationOpens: bool,
    transfer: TransferFault): (d: Download)
    requires repo.Connected()
    ensures d.result == Copy(repo, store, resourceName, fetch, destinationOpens, transfer).result
    ensures d.destinationStream != Open
  {
    var key := ResolveKey(repo, resourceName);
    match GetObject(store, ObjectId(repo.bucket, key), fetch)
    case Refused(_) =>
      Download(Failure(ResourceDoesNotExist(ResourceMissingMessage)), Unopened, Unopened)
    case Answered(obj) =>
      if !destinationOpens then
        Download(Failure(TransferFailed(DownloadFailedMessage(key))), Open, Unopened)
      else if transfer.Completes? then
        Download(Success(obj.content), Closed, Closed)
      else
        Download(Failure(TransferFailed(DownloadFailedMessage(key))), Closed, Closed)
  }

  /** The leak: an existing object and a destination that cannot be opened
      leave the object's stream open in the code as written, and closed in
      the corrected `Copy`. */
  lemma CopyLeaksObjectStream(
    repo: Repository, store: Store, resourceName: string, transfer: TransferFault)
    requires repo.Connected()
    requires Location(repo, resourceName) in store
    ensures CopyAsWritten(repo, store, resourceName, Answers, false, transfer).objectStream == Open
    ensures Copy(repo, store, resourceName, Answers, false, transfer).objectStream == Closed
  {
  }
}
