/** Properties of the repository facade that relate several operations:
    the connection lifecycle, the fixed repository context, upload/download
    round trips, and the deliberate asymmetry between `exists` and
    `newResourceAvailable`. */
module RepositoryProperties {
  import opened Outcomes
  import opened S3Store
  import opened Wagon
  import opened StorageRepository

  /** An explicit region always wins; the region property is consulted only
      without one; the builder gets no region only when both are absent. */
  lemma RegionChoice(auth: Option<AuthInfo>, region: Option<string>, regionProperty: Option<string>)
    ensures region.Some? ==> BuildConfig(auth, region, regionProperty).region == region
    ensures region.None? ==> BuildConfig(auth, region, regionProperty).region == regionProperty
    ensures BuildConfig(auth, region, regionProperty).region.None? <==> region.None? && regionProperty.None?
  {
  }

  /** A successful `connect` followed by `disconnect` returns to the
      disconnected repository it started from, whatever client it held. */
  lemma ConnectThenDisconnect(
    repo: Repository, auth: Option<AuthInfo>, region: Option<string>,
    regionProperty: Option<string>, probe: ClientConfig -> ProbeOutcome)
    requires probe(BuildConfig(auth, region, regionProperty)).Reachable?
    ensures Connect(repo, auth, region, regionProperty, probe).repo.Connected()
    ensures Disconnect(Connect(repo, auth, region, regionProperty, probe).repo) == Disconnect(repo)
  {
  }

  /** `disconnect` is idempotent. */
  lemma DisconnectIdempotent(repo: Repository)
    ensures Disconnect(Disconnect(repo)) == Disconnect(repo)
  {
  }

  /** The key of a path depends only on the base directory and the resolver:
      the bucket and the connection state play no part. */
  lemma ResolveKeyIgnoresBucketAndClient(r1: Repository, r2: Repository, path: string)
    requires r1.baseDirectory == r2.baseDirectory && r1.resolver == r2.resolver
    ensures ResolveKey(r1, path) == ResolveKey(r2, path)
  {
  }

  /** Neither `connect` nor `disconnect` moves any operation to another
      store location: bucket, base directory and resolver are fixed. */
  lemma LocationsNeverMove(
    repo: Repository, auth: Option<AuthInfo>, region: Option<string>,
    regionProperty: Option<string>, probe: ClientConfig -> ProbeOutcome, path: string)
    ensures Location(Connect(repo, auth, region, regionProperty, probe).repo, path) == Location(repo, path)
    ensures Location(Disconnect(repo), path) == Location(repo, path)
  {
  }

  /** Downloading what was just uploaded yields the uploaded bytes. */
  lemma PutThenCopy(
    repo: Repository, store: Store, file: LocalFile, destination: string, now: int)
    requires repo.Connected()
    ensures
      var u := Put(repo, store, file, destination, now, true, Answers, true);
      u.result.Success? &&
      Copy(repo, u.store, destination, Answers, true, Completes).result == Success(file.content)
  {
  }

  /** After an upload the object exists, and it counts as new exactly for
      timestamps before the store's clock at upload time. */
  lemma PutThenProbe(
    repo: Repository, store: Store, file: LocalFile, destination: string, now: int, timeStamp: int)
    requires repo.Connected()
    ensures
      var u := Put(repo, store, file, destination, now, true, Answers, true);
      && Exists(repo, u.store, destination, Answers)
      && NewResourceAvailable(repo, u.store, destination, timeStamp, Answers) == Success(now > timeStamp)
  {
  }

  /** An upload, successful or not, leaves every other location as it was:
      existence, freshness and downloads of other resources are unchanged. */
  lemma PutLeavesOtherResources(
    repo: Repository, store: Store, file: LocalFile, destination: string, now: int,
    sourceOpens: bool, upload: ServiceFault, closeSucceeds: bool,
    other: string, timeStamp: int, fault: ServiceFault, destinationOpens: bool, transfer: TransferFault)
    requires repo.Connected()
    requires Location(repo, other) != Location(repo, destination)
    ensures
      var after := Put(repo, store, file, destination, now, sourceOpens, upload, closeSucceeds).store;
      && Exists(repo, after, other, fault) == Exists(repo, store, other, fault)
      && NewResourceAvailable(repo, after, other, timeStamp, fault)
         == NewResourceAvailable(repo, store, other, timeStamp, fault)
      && Copy(repo, after, other, fault, destinationOpens, transfer)
         == Copy(repo, store, other, fault, destinationOpens, transfer)
  {
    var after := Put(repo, store, file, destination, now, sourceOpens, upload, closeSucceeds).store;
    assert Location(repo, other) in after <==> Location(repo, other) in store;
  }

  /** Freshness is strict: an object modified exactly at `timeStamp` is not new. */
  lemma FreshnessIsStrict(repo: Repository, store: Store, resourceName: string, timeStamp: int)
    requires repo.Connected()
    requires Location(repo, resourceName) in store
    requires store[Location(repo, resourceName)].lastModified == timeStamp
    ensures NewResourceAvailable(repo, store, resourceName, timeStamp, Answers) == Success(false)
  {
  }

  /** `exists` answers false exactly where `newResourceAvailable` throws
      ResourceDoesNotExist: the same refusal, reported two ways. */
  lemma ExistsAgainstFreshness(
    repo: Repository, store: Store, resourceName: string, timeStamp: int, fault: ServiceFault)
    requires repo.Connected()
    ensures !Exists(repo, store, resourceName, fault) <==>
      NewResourceAvailable(repo, store, resourceName, timeStamp, fault)
        == Failure(ResourceDoesNotExist(RetrieveFailedMessage(ResolveKey(repo, resourceName))))
  {
  }

  /** Downloading a missing object always reports ResourceDoesNotExist and
      never TransferFailed, whatever the destination and streaming would do. */
  lemma CopyOfMissingObject(
    repo: Repository, store: Store, resourceName: string, fetch: ServiceFault,
    destinationOpens: bool, transfer: TransferFault)
    requires repo.Connected()
    requires Location(repo, resourceName) !in store
    ensures Copy(repo, store, resourceName, fetch, destinationOpens, transfer).result
      == Failure(ResourceDoesNotExist(ResourceMissingMessage))
  {
  }
}
