# S3 storage repository facade, modelled in Dafny

This project models `S3StorageRepository`, the facade through which the S3
Maven wagon talks to an S3 bucket: connecting with a region and credentials,
resolving artifact paths to storage keys under a base directory, and the
data operations `copy` (download), `put` (upload), `newResourceAvailable`,
`list` and `exists`, together with the way each one turns store failures
into the wagon's exceptions (Authentication, ResourceDoesNotExist,
TransferFailed).

The object store is abstract: a map from (bucket, key) to the stored
object's content, last-modified time and canned ACL (`S3Store`). Whether a
request is served or throws an `AmazonS3Exception`, and whether a transfer
completes, breaks in the service or breaks with an `IOException`, are
parameters, so every outcome is reachable. A listing is the store's sequence
of answers (pages of keys with a truncated flag, or a refusal).

The repository is an immutable value (`StorageRepository.Repository`) whose
`client` field is present after a `connect` that built a client and absent
after `disconnect`; the data operations require it to be present. `connect`
and `disconnect` return the next repository, `put` returns the next store.

Modules:
- `Outcomes` (outcomes.dfy): `Option` and `Result`.
- `Wagon` (wagon.dfy): the exception taxonomy and its fixed messages.
- `Text` (text.dfy): `Contains`, as Java's `String.contains`.
- `S3Store` (s3_store.dfy): the abstract store and its requests.
- `Listing` (listing.dfy): following truncated pages, as the source's recursion and as a loop.
- `StorageRepository` (repository.dfy): the facade's operations.
- `RepositoryProperties` (properties.dfy): lemmas relating several operations.
- `AsWritten` (as_written.dfy): the two defects listed under Findings, as written.

Behaviours of the code the model keeps as they are:
- `exists` returns false on every `AmazonS3Exception`, whatever its status (S3StorageRepository.java lines 187-188).
- `copy` reports ResourceDoesNotExist for every `AmazonS3Exception` from `getObject`, not only for a missing object (lines 105-109).
- `list` catches nothing: an `AmazonS3Exception` from a listing request escapes to the caller (lines 158-162 and 173), modelled as `StoreException`.
- A `connect` whose `listBuckets` probe fails still leaves the newly built client in the field, because the field is assigned at line 83, before the probe at line 84.

## Model

| member | source | states |
|---|---|---|
| StorageRepository.NewRepository | S3StorageWagon/src/main/java/com/gkatzioura/maven/cloud/s3/S3StorageRepository.java:51-65 | a new repository keeps the given bucket, base directory and resolver and has no client |
| RepositoryProperties.RegionChoice | S3StorageWagon/src/main/java/com/gkatzioura/maven/cloud/s3/S3StorageRepository.java:70-81 | an explicit region wins; the region property is used only without one; no region is set only when both are absent |
| StorageRepository.ConnectFailure | S3StorageWagon/src/main/java/com/gkatzioura/maven/cloud/s3/S3StorageRepository.java:88-95 | every connect failure is an Authentication error; it carries the AWS_DEFAULT_REGION remediation message and no cause iff the failure message contains the region-provider-chain text, and otherwise "Could not authenticate" with the failure wrapped as its cause |
| RepositoryProperties.ResolveKeyIgnoresBucketAndClient | S3StorageWagon/src/main/java/com/gkatzioura/maven/cloud/s3/S3StorageRepository.java:196-198 | two repositories with the same base directory and key resolver resolve every path to the same key, whatever their buckets and connection states |
| StorageRepository.EffectiveRegion | S3StorageWagon/src/main/java/com/gkatzioura/maven/cloud/s3/S3StorageRepository.java:70-75 | an explicit region wins; without one the region property is used; no region results only when both are absent |
| StorageRepository.BuildConfig | S3StorageWagon/src/main/java/com/gkatzioura/maven/cloud/s3/S3StorageRepository.java:77-81 | the builder gets the credentials from the given authentication info, and a region exactly when an explicit region or the region property supplies one |
| StorageRepository.Connect | S3StorageWagon/src/main/java/com/gkatzioura/maven/cloud/s3/S3StorageRepository.java:67-96 | connect succeeds iff the built client is reachable; once a client is built it is held with the given credentials and the chosen region; a failed build leaves the repository unchanged; a failure is the translated Authentication error; the context never changes |
| Text.ContainsIffOccurs | S3StorageWagon/src/main/java/com/gkatzioura/maven/cloud/s3/S3StorageRepository.java:90 | the message test holds exactly when the region-provider-chain text occurs at some position of the message |
| StorageRepository.Copy | S3StorageWagon/src/main/java/com/gkatzioura/maven/cloud/s3/S3StorageRepository.java:98-119 | a download succeeds iff the object is fetched, the destination opens and streaming completes, and then yields the object's content; a refused fetch is ResourceDoesNotExist; a failure after the fetch is TransferFailed naming the key; no stream is left open |
| RepositoryProperties.CopyOfMissingObject | S3StorageWagon/src/main/java/com/gkatzioura/maven/cloud/s3/S3StorageRepository.java:104-109 | downloading a missing object is ResourceDoesNotExist and never TransferFailed, whatever the destination and the transfer would do |
| StorageRepository.Put | S3StorageWagon/src/main/java/com/gkatzioura/maven/cloud/s3/S3StorageRepository.java:121-134 | an upload stores the file's bytes with PublicRead at the resolved key iff the file opens and the request is served; it succeeds iff the stream also closes; no other location changes; every failure is TransferFailed naming the file; the file stream is not left open |
| RepositoryProperties.PutThenCopy | S3StorageWagon/src/main/java/com/gkatzioura/maven/cloud/s3/S3StorageRepository.java:121-134 | downloading the resource just uploaded yields the uploaded bytes |
| RepositoryProperties.PutLeavesOtherResources | S3StorageWagon/src/main/java/com/gkatzioura/maven/cloud/s3/S3StorageRepository.java:123-128 | an upload, successful or not, changes no exists, freshness or download answer for a resource at another location |
| RepositoryProperties.PutThenProbe | S3StorageWagon/src/main/java/com/gkatzioura/maven/cloud/s3/S3StorageRepository.java:136-151 | after an upload the resource exists and is new exactly for timestamps earlier than the upload time |
| StorageRepository.NewResourceAvailable | S3StorageWagon/src/main/java/com/gkatzioura/maven/cloud/s3/S3StorageRepository.java:136-151 | the answer is given iff the metadata request is served, and is true iff the object's last-modified time is strictly after the timestamp; otherwise ResourceDoesNotExist naming the key |
| RepositoryProperties.FreshnessIsStrict | S3StorageWagon/src/main/java/com/gkatzioura/maven/cloud/s3/S3StorageRepository.java:145-146 | an object modified exactly at the timestamp is not new |
| StorageRepository.Exists | S3StorageWagon/src/main/java/com/gkatzioura/maven/cloud/s3/S3StorageRepository.java:180-190 | exists is true iff the metadata request for the resolved key is served and the object is in the bucket; it never fails |
| RepositoryProperties.ExistsAgainstFreshness | S3StorageWagon/src/main/java/com/gkatzioura/maven/cloud/s3/S3StorageRepository.java:180-190 | exists is false exactly when newResourceAvailable raises ResourceDoesNotExist for the same resource |
| StorageRepository.List | S3StorageWagon/src/main/java/com/gkatzioura/maven/cloud/s3/S3StorageRepository.java:154-163 | listing a path lists the store's answers for the resolved prefix in the bucket and yields the promised outcome of following them |
| Listing.LastRequest | S3StorageWagon/src/main/java/com/gkatzioura/maven/cloud/s3/S3StorageRepository.java:171-175 | the listing stops at the first answer that is refused or not truncated, and every answer before it was a truncated page |
| Listing.TotalObjectsRecursive | S3StorageWagon/src/main/java/com/gkatzioura/maven/cloud/s3/S3StorageRepository.java:165-178 | the recursive totalObjects: a failure is always the store's escaping exception, and a success starts with the first page's keys in order |
| Listing.TotalObjects | S3StorageWagon/src/main/java/com/gkatzioura/maven/cloud/s3/S3StorageRepository.java:165-178 | the loop yields the keys of every page up to the last one, in page order and in order within each page, or the refused request's exception, and agrees with the source's recursion |
| Listing.TotalObjectsRecursiveIsListingOutcome | S3StorageWagon/src/main/java/com/gkatzioura/maven/cloud/s3/S3StorageRepository.java:165-178 | the source's recursive totalObjects yields exactly the concatenation of the pages up to the last one, or the refusal |
| Listing.KeysOfAppend | S3StorageWagon/src/main/java/com/gkatzioura/maven/cloud/s3/S3StorageRepository.java:174 | the keys of two runs of pages are the keys of the first run followed by those of the second |
| Listing.KeysOfLength | S3StorageWagon/src/main/java/com/gkatzioura/maven/cloud/s3/S3StorageRepository.java:169-174 | the gathered keys are as many as the pages' keys together |
| Listing.KeysOfMembership | S3StorageWagon/src/main/java/com/gkatzioura/maven/cloud/s3/S3StorageRepository.java:169-174 | a key is gathered iff some answered page carries it |
| Listing.ThreeBatchesOfTwo | S3StorageWagon/src/main/java/com/gkatzioura/maven/cloud/s3/S3StorageRepository.java:165-178 | three pages of two keys, the first two truncated, list as exactly those six keys in page order |
| Listing.ListingLength | S3StorageWagon/src/main/java/com/gkatzioura/maven/cloud/s3/S3StorageRepository.java:154-178 | a successful listing holds as many keys as the pages up to the last one together |
| StorageRepository.Disconnect | S3StorageWagon/src/main/java/com/gkatzioura/maven/cloud/s3/S3StorageRepository.java:192-194 | after disconnect there is no client and the context is unchanged |
| RepositoryProperties.DisconnectIdempotent | S3StorageWagon/src/main/java/com/gkatzioura/maven/cloud/s3/S3StorageRepository.java:192-194 | disconnecting twice is disconnecting once |
| RepositoryProperties.ConnectThenDisconnect | S3StorageWagon/src/main/java/com/gkatzioura/maven/cloud/s3/S3StorageRepository.java:83-84 | a successful connect holds a client, and disconnecting afterwards returns to the repository's disconnected state |
| RepositoryProperties.LocationsNeverMove | S3StorageWagon/src/main/java/com/gkatzioura/maven/cloud/s3/S3StorageRepository.java:196-198 | connect and disconnect never change the bucket and key an operation on a path addresses |
| AsWritten.ConnectFailureAsWritten | S3StorageWagon/src/main/java/com/gkatzioura/maven/cloud/s3/S3StorageRepository.java:88-95 | as written, a failure with a null message raises NullPointerException, one with a message an Authentication error |
| AsWritten.NullMessageEscapesConnect | S3StorageWagon/src/main/java/com/gkatzioura/maven/cloud/s3/S3StorageRepository.java:90 | on a null message the as-written translation raises no Authentication error while the corrected one does; on any other message they agree |
| AsWritten.CopyAsWritten | S3StorageWagon/src/main/java/com/gkatzioura/maven/cloud/s3/S3StorageRepository.java:104-118 | as written, copy reports the same results as the corrected Copy and never leaves the destination open |
| AsWritten.CopyLeaksObjectStream | S3StorageWagon/src/main/java/com/gkatzioura/maven/cloud/s3/S3StorageRepository.java:111-112 | with an existing object and a destination that cannot be opened, the as-written copy leaves the object's stream open and the corrected one closes it |

## Left out

- Client construction, `CredentialsFactory` and the `listBuckets` probe are foreign SDK calls: `connect` takes their combined outcome as the `probe` parameter, and the client records only the credentials' source and region it was built with. `CredentialsFactory` is not part of this model.
- `KeyResolver.resolve` is not part of this model: each repository carries the resolver as an uninterpreted function of (base directory, path); nothing is assumed about its injectivity.
- `RegionProperty.get()` is not part of this model: its result is the `regionProperty` parameter of `connect`.
- The transfer progress streams and `IOUtils.copy` are abstracted: a transfer moves the whole content or breaks; progress callbacks and byte counts are not modelled.
- StorageRepository.Copy: does not state what a failed download leaves in the destination file (possibly partial bytes).
- Client-side SDK failures that are not `AmazonS3Exception` (network errors, read errors inside `putObject`) escape `copy`, `put`, `newResourceAvailable`, `list` and `exists` untranslated in the source; they are not modelled. In `connect` they are caught like any other exception and are covered by the probe outcome.
- Logging has no effect on results and is left out.
- Concurrency and network timeouts are out of scope for this sequential model.
- `java.util.Date` is reduced to an integer last-modified time; a null `getLastModified()` is not modelled. Both sides of the freshness comparison are Java `long`s, so the unbounded comparison loses nothing.
- A data operation called without a client dereferences null in the source; the model makes a present client a precondition instead.
- Listing.TotalObjects: requires that the store ends the listing within the answers given (a page that is not truncated, or a refusal); `StorageRepository.List`, `Listing.TotalObjectsRecursive`, `Listing.LastRequest` and `Listing.ListingOutcome` carry the same requirement. A store that reports truncated pages forever is not modelled; on such a store the source recurses without limit (lines 171-174).
- Which keys the store puts on listing pages (the keys under the prefix) is the store's concern; the listing answers are a parameter and are not tied to the store map.

## Findings

| source | as written | input that shows it | evidently intended | confidence | as-written member | corrected member |
|---|---|---|---|---|---|---|
| S3StorageWagon/src/main/java/com/gkatzioura/maven/cloud/s3/S3StorageRepository.java:88-94 | the catch block calls `getMessage().contains(...)` without a null check | a failure while building or probing the client whose exception has a null message (a bare `NullPointerException`) | every connect failure becomes an AuthenticationException ("Could not authenticate") | not executed; medium | AsWritten.NullMessageEscapesConnect | StorageRepository.ConnectFailure |
| S3StorageWagon/src/main/java/com/gkatzioura/maven/cloud/s3/S3StorageRepository.java:104-114 | the object's content stream, already open after `getObject`, is registered as a resource only after the destination file stream opens | an existing object and a destination file that cannot be opened (a missing parent directory) | the object's stream is released on every exit path, including a failure to open the destination | not executed; medium | AsWritten.CopyLeaksObjectStream | StorageRepository.Copy |
