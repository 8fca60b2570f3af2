/** The S3 repository facade: connection state, key resolution and the data
    operations `copy`, `put`, `newResourceAvailable`, `list` and `exists`.

    The repository is an immutable value; `connect` and `disconnect` return
    the next one. The data operations read the store (and `put` returns the
    next store). Everything the facade cannot decide itself is a parameter:
    the key resolver, the region property, the outcome of building and
    probing a client, the store's clock, and each fault a request or a
    transfer may hit. */
module StorageRepository {
  import opened Outcomes
  import opened Text
  import opened S3Store
  import opened Wagon
  import Listing

  /** The build tool's authentication info; either part may be missing. */
  datatype AuthInfo = AuthInfo(userName: Option<string>, password: Option<string>)

  /** What the client builder was given: the credentials' source and the
      region passed to `withRegion`, if any. */
  datatype ClientConfig = ClientConfig(auth: Option<AuthInfo>, region: Option<string>)

  /** How building a client and probing it with `listBuckets` ended. A
      failure carries the exception's message, which Java allows to be null. */
  datatype ProbeOutcome =
    | Reachable
    | BuildFails(message: Option<string>)
    | ListBucketsFails(message: Option<string>)

  /** The repository: immutable context (`bucket`, `baseDirectory`, the key
      resolver) and the client handle, present once connected. */
  datatype Repository = Repository(
    bucket: string,
    baseDirectory: string,
    resolver: (string, string) -> Key,
    client: Option<ClientConfig>)
  {
    predicate Connected() {
      client.Some?
    }

    /** The same repository context, whatever the connection state. */
    ghost predicate SameContext(other: Repository) {
      bucket == other.bucket && baseDirectory == other.baseDirectory && resolver == other.resolver
    }
  }

  /** A freshly constructed repository: no client yet. */
  function NewRepository(bucket: string, baseDirectory: string, resolver: (string, string) -> Key): (r: Repository)
    ensures !r.Connected()
    ensures r.bucket == bucket && r.baseDirectory == baseDirectory && r.resolver == resolver
  {
    Repository(bucket, baseDirectory, resolver, None)
  }

  /** `resolveKey`: the repository's key resolver applied to its base directory. */
  function ResolveKey(repo: Repository, path: string): Key {
    repo.resolver(repo.baseDirectory, path)
  }

  /** The store location an operation on `path` addresses. */
  function Location(repo: Repository, path: string): ObjectId {
    ObjectId(repo.bucket, ResolveKey(repo, path))
  }

  /** The region `connect` sets on the builder: the explicit argument when
      given, otherwise the region property. */
  function EffectiveRegion(region: Option<string>, regionProperty: Option<string>): (r: Option<string>)
    ensures region.Some? ==> r == region
    ensures r.None? <==> region.None? && regionProperty.None?
    ensures r.Some? ==> r == region || r == regionProperty
  {
    if region.Some? then region else regionProperty
  }

  /** The client configuration `connect` builds: credentials from the given
      authentication info, and `withRegion` applied only when some region
      was found. */
  function BuildConfig(auth: Option<AuthInfo>, region: Option<string>, regionProperty: Option<string>): (c: ClientConfig)
    ensures c.auth == auth
    ensures c.region.Some? <==> region.Some? || regionProperty.Some?
    ensures c.region == EffectiveRegion(region, regionProperty)
  {
    ClientConfig(auth, EffectiveRegion(region, regionProperty))
  }

  /** The Authentication error `connect` raises for a failure with `message`:
      the remediation message, without a cause, when the SDK could not find
      a region; otherwise the generic message wrapping the failure as its
      cause, including when the message is null. */
  function ConnectFailure(message: Option<string>): (e: WagonError)
    ensures e.Authentication?
    ensures e.message == ProvideRegionMessage <==>
      message.Some? && Contains(message.value, RegionChainMessage)
    ensures e.message != ProvideRegionMessage ==> e.message == CouldNotAuthenticateMessage
    ensures e.cause.None? <==> e.message == ProvideRegionMessage
    ensures e.cause.Some? ==> e.cause.value == Cause(message)
  {
    if message.Some? && Contains(message.value, RegionChainMessage) then
      Authentication(ProvideRegionMessage, None)
    else
      Authentication(CouldNotAuthenticateMessage, Some(Cause(message)))
  }

  /** The repository after `connect`, and whether it threw. */
  datatype Connection = Connection(repo: Repository, result: Result<(), WagonError>)

  /** `connect(authenticationInfo, region)`. The client field is assigned
      once `build()` returns, before the `listBuckets` probe, so a failed
      probe still leaves the new client in place. */
  function Connect(
    repo: Repository,
    auth: Option<AuthInfo>,
    region: Option<string>,
    regionProperty: Option<string>,
    probe: ClientConfig -> ProbeOutcome): (c: Connection)
    ensures c.repo.SameContext(repo)
    ensures c.result.Success? <==> probe(BuildConfig(auth, region, regionProperty)).Reachable?
    ensures c.result.Success? ==> c.repo.Connected()
    ensures !probe(BuildConfig(auth, region, regionProperty)).BuildFails? ==>
      && c.repo.Connected()
      && c.repo.client.value.auth == auth
      && (region.Some? ==> c.repo.client.value.region == region)
      && (region.None? ==> c.repo.client.value.region == regionProperty)
    ensures probe(BuildConfig(auth, region, regionProperty)).BuildFails? ==> c.repo == repo
    ensures c.result.Failure? ==>
      c.result.error == ConnectFailure(probe(BuildConfig(auth, region, regionProperty)).message)
  {
    var config := BuildConfig(auth, region, regionProperty);
    match probe(config)
    case Reachable => Connection(repo.(client := Some(config)), Success(()))
    case BuildFails(m) => Connection(repo, Failure(ConnectFailure(m)))
    case ListBucketsFails(m) => Connection(repo.(client := Some(config)), Failure(ConnectFailure(m)))
  }

  /** `disconnect`: the client handle is dropped. */
  function Disconnect(repo: Repository): (r: Repository)
    ensures !r.Connected()
    ensures r.SameContext(repo)
  {
    repo.(client := None)
  }

  /** The outcome of `copy`: the bytes written to the destination file on
      success, and the final state of the object's content stream and of
      the destination file stream. */
  datatype Download = Download(
    result: Result<Content, WagonError>,
    objectStream: StreamState,
    destinationStream: StreamState)

  /** `copy(resourceName, destination, progress)`: download the object at
      the resolved key into the destination file. `fetch` decides the
      `getObject` request, `destinationOpens` whether the destination file
      can be opened for writing, and `transfer` how streaming ends. Both
      streams are released on every path. */
  function Copy(
    repo: Repository,
    store: Store,
    resourceName: string,
    fetch: ServiceFault,
    destinationOpens: bool,
    transfer: TransferFault): (d: Download)
    requires repo.Connected()
    ensures d.result.Success? <==>
      fetch.Answers? && Location(repo, resourceName) in store && destinationOpens && transfer.Completes?
    ensures d.result.Success? ==> d.result.value == store[Location(repo, resourceName)].content
    ensures d.result.Failure? && GetObject(store, Location(repo, resourceName), fetch).Refused? ==>
      d.result.error == ResourceDoesNotExist(ResourceMissingMessage)
    ensures d.result.Failure? && GetObject(store, Location(repo, resourceName), fetch).Answered? ==>
      d.result.error == TransferFailed(DownloadFailedMessage(ResolveKey(repo, resourceName)))
    ensures d.objectStream != Open && d.destinationStream != Open
  {
    var key := ResolveKey(repo, resourceName);
    match GetObject(store, ObjectId(repo.bucket, key), fetch)
    case Refused(_) =>
      Download(Failure(ResourceDoesNotExist(ResourceMissingMessage)), Unopened, Unopened)
    case Answered(obj) =>
      if !destinationOpens then
        Download(Failure(TransferFailed(DownloadFailedMessage(key))), Closed, Unopened)
      else if transfer.Completes? then
        Download(Success(obj.content), Closed, Closed)
      else
        Download(Failure(TransferFailed(DownloadFailedMessage(key))), Closed, Closed)
  }

  /** A local file: its name (`File.getName()`) and its bytes. */
  datatype LocalFile = LocalFile(name: string, content: Content)

  /** The outcome of `put`: the next store, whether it threw, and the final
      state of the file input stream. */
  datatype Upload = Upload(store: Store, result: Result<(), WagonError>, fileStream: StreamState)

  /** `put(file, destination, progress)`: upload the file to the resolved key
      with the PublicRead canned ACL. `sourceOpens` decides whether the file
      can be opened, `upload` the `putObject` request, `closeSucceeds` whether
      closing the file stream succeeds; `now` is the store's clock. */
  function Put(
    repo: Repository,
    store: Store,
    file: LocalFile,
    destination: string,
    now: int,
    sourceOpens: bool,
    upload: ServiceFault,
    closeSucceeds: bool): (u: Upload)
    requires repo.Connected()
    ensures u.result.Success? <==> sourceOpens && upload.Answers? && closeSucceeds
    ensures sourceOpens && upload.Answers? ==>
      Location(repo, destination) in u.store &&
      u.store[Location(repo, destination)] == StoredObject(file.content, now, PublicRead)
    ensures !(sourceOpens && upload.Answers?) ==> u.store == store
    ensures SameExcept(store, u.store, Location(repo, destination))
    ensures u.result.Failure? ==> u.result.error == TransferFailed(UploadFailedMessage(file.name))
    ensures u.fileStream != Open
  {
    var key := ResolveKey(repo, destination);
    var failed := Failure(TransferFailed(UploadFailedMessage(file.name)));
    if !sourceOpens then
      Upload(store, failed, Unopened)
    else
      match upload
      case Throws(_) => Upload(store, failed, Closed)
      case Answers =>
        var stored := PutObject(store, ObjectId(repo.bucket, key), file.content, PublicRead, now);
        Upload(stored, if closeSucceeds then Success(()) else failed, Closed)
  }

  /** `newResourceAvailable(resourceName, timeStamp)`: whether the object was
      modified strictly after `timeStamp`; a refused metadata request is an
      error naming the key, not a `false`. */
  function NewResourceAvailable(
    repo: Repository,
    store: Store,
    resourceName: string,
    timeStamp: int,
    fault: ServiceFault): (r: Result<bool, WagonError>)
    requires repo.Connected()
    ensures r.Success? <==> fault.Answers? && Location(repo, resourceName) in store
    ensures r.Success? ==> (r.value <==> store[Location(repo, resourceName)].lastModified > timeStamp)
    ensures r.Failure? ==>
      r.error == ResourceDoesNotExist(RetrieveFailedMessage(ResolveKey(repo, resourceName)))
  {
    var key := ResolveKey(repo, resourceName);
    match GetObjectMetadata(store, ObjectId(repo.bucket, key), fault)
    case Answered(updated) => Success(updated > timeStamp)
    case Refused(_) => Failure(ResourceDoesNotExist(RetrieveFailedMessage(key)))
  }

  /** `exists(resourceName)`: whether the metadata request for the resolved
      key is answered; a refusal of any kind reads as `false`. */
  function Exists(repo: Repository, store: Store, resourceName: string, fault: ServiceFault): (b: bool)
    requires repo.Connected()
    ensures b <==> fault.Answers? && Location(repo, resourceName) in store
  {
    var key := ResolveKey(repo, resourceName);
    GetObjectMetadata(store, ObjectId(repo.bucket, key), fault).Answered?
  }

  /** `list(path)`: every key under the resolved prefix, gathered page by
      page. `listing(bucket, prefix)` is the store's sequence of answers to
      the first request and its follow-ups. A refused request escapes as the
      store's exception. */
  method List(
    repo: Repository,
    path: string,
    listing: (string, Key) -> seq<Answer<Page>>) returns (r: Result<seq<Key>, WagonError>)
    requires repo.Connected()
    requires Listing.ListingEnds(listing(repo.bucket, ResolveKey(repo, path)))
    ensures r == Listing.ListingOutcome(listing(repo.bucket, ResolveKey(repo, path)))
  {
    var key := ResolveKey(repo, path);
    r := Listing.TotalObjects(listing(repo.bucket, key));
  }
}
