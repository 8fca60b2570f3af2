/** An abstract model of the S3 object store the facade talks to.

    The store is a map from (bucket, key) to the stored object. Whether a
    request is served or throws an `AmazonS3Exception` is decided by a fault
    value supplied by the caller of the model, so every outcome the SDK can
    report is reachable. Streaming transfers can also break with an
    `IOException`. */
module S3Store {

  type Key = string
  type Content = seq<bv8>

  /** The canned access-control policies the facade uses. */
  datatype CannedAcl = Private | PublicRead

  /** Where an object lives: its bucket and its key inside the bucket. */
  datatype ObjectId = ObjectId(bucket: string, key: Key)

  datatype StoredObject = StoredObject(content: Content, lastModified: int, acl: CannedAcl)

  type Store = map<ObjectId, StoredObject>

  /** Whether one request to the service is answered or throws an `AmazonS3Exception`. */
  datatype ServiceFault = Answers | Throws(message: string)

  /** The reply to one request: a value, or an `AmazonS3Exception` with its message. */
  datatype Answer<T> = Answered(value: T) | Refused(message: string)

  /** What happens while bytes are streamed: they all move, the service
      throws an `AmazonS3Exception`, or the local side throws an `IOException`. */
  datatype TransferFault = Completes | ServiceBreaks(message: string) | IoBreaks

  /** One batch of a listing: its keys, and whether more batches follow. */
  datatype Page = Page(keys: seq<Key>, truncated: bool)

  /** The lifecycle of one stream the facade opens. */
  datatype StreamState = Unopened | Open | Closed

  /** The service's message for a key that is not in the bucket. */
  const NoSuchKeyMessage := "The specified key does not exist."

  /** `getObject(bucket, key)`. */
  function GetObject(store: Store, id: ObjectId, fault: ServiceFault): Answer<StoredObject> {
    match fault
    case Throws(m) => Refused(m)
    case Answers => if id in store then Answered(store[id]) else Refused(NoSuchKeyMessage)
  }

  /** `getObjectMetadata(bucket, key)`, reduced to the last-modified time. */
  function GetObjectMetadata(store: Store, id: ObjectId, fault: ServiceFault): Answer<int> {
    match GetObject(store, id, fault)
    case Answered(obj) => Answered(obj.lastModified)
    case Refused(m) => Refused(m)
  }

  /** A served `putObject`: the object is replaced, stamped with the store's clock `now`. */
  function PutObject(store: Store, id: ObjectId, content: Content, acl: CannedAcl, now: int): Store {
    store[id := StoredObject(content, now, acl)]
  }

  /** `after` differs from `before` at most at `id`. */
  ghost predicate SameExcept(before: Store, after: Store, id: ObjectId) {
    && (forall o :: o in before && o != id ==> o in after && after[o] == before[o])
    && (forall o :: o in after && o != id ==> o in before)
  }
}
