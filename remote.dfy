/**
 * The hosted backend as the console sees it. Every document-store, storage
 * or account request is a `Call`; the backend's answer to a call is an
 * oracle `respond: Call -> Response` that either returns a document or
 * rejects with a message. Operations return the calls they made, in order,
 * so that ordering and "not called" can be stated. Configuration comes from
 * process environment variables, read as a map.
 */
module Remote {
  import opened Json

  // ---------------------------------------------------------------------------
  // Environment

  type Env = map<string, string>

  const EndpointVar := "NEXT_PUBLIC_APPWRITE_ENDPOINT"
  const ProjectVar := "NEXT_PUBLIC_APPWRITE_PROJECT_ID"
  const DatabaseVar := "NEXT_PUBLIC_APPWRITE_DATABASE_ID"
  const CategoryBucketVar := "NEXT_PUBLIC_APPWRITE_CATEGORY_BUCKET_ID"
  /** The misspelt name the add-category screen reads for its inline icon URL. */
  const MisspeltCategoryBucketVar := "NEXT_PUBLIC_APPWRITE_CATRGORY_BUCKET_ID"
  const SubCategoryBucketVar := "NEXT_PUBLIC_APPWRITE_SUBCATEGORY_BUCKET_ID"
  const BrandBucketVar := "NEXT_PUBLIC_APPWRITE_BRAND_BUCKET_ID"
  const ProductBucketVar := "NEXT_PUBLIC_APPWRITE_BUCKET_ID"
  const CategoryCollectionVar := "NEXT_PUBLIC_APPWRITE_CATEGORY_COLLECTION_ID"
  const SubCategoryCollectionVar := "NEXT_PUBLIC_APPWRITE_SUBCATEGORY_COLLECTION_ID"

  /** `${process.env.NAME}`: the variable's value, or the text "undefined" when it is unset. */
  function EnvValue(env: Env, name: string): (v: string)
    ensures name !in env ==> v == "undefined"
  {
    if name in env then env[name] else "undefined"
  }

  // ---------------------------------------------------------------------------
  // Storage URLs

  /** `<endpoint>/storage/buckets/<bucket>/files/<fileId>/view?project=<project>`. */
  function FileViewUrl(endpoint: string, bucket: string, fileId: string, project: string): string {
    endpoint + "/storage/buckets/" + bucket + "/files/" + fileId + "/view?project=" + project
  }

  /** The view URL of `fileId` in the bucket named by the variable `bucketVar`. */
  function BucketFileUrl(env: Env, bucketVar: string, fileId: string): string {
    FileViewUrl(EnvValue(env, EndpointVar), EnvValue(env, bucketVar), fileId, EnvValue(env, ProjectVar))
  }

  /** Two strings framed by the same prefix and suffix are equal when the framed strings are. */
  lemma SameFrame(pre: string, x: string, y: string, post: string)
    requires pre + x + post == pre + y + post
    ensures x == y
  {
    var s := pre + x + post;
    assert |x| == |y|;
    assert s[|pre|..|pre| + |x|] == x;
    assert (pre + y + post)[|pre|..|pre| + |y|] == y;
  }

  /** The file id can be read back from a view URL: distinct ids give distinct URLs. */
  lemma FileViewUrlInjective(endpoint: string, bucket: string, f1: string, f2: string, project: string)
    ensures FileViewUrl(endpoint, bucket, f1, project) == FileViewUrl(endpoint, bucket, f2, project)
      <==> f1 == f2
  {
    var pre := endpoint + "/storage/buckets/" + bucket + "/files/";
    var post := "/view?project=" + project;
    assert FileViewUrl(endpoint, bucket, f1, project) == pre + f1 + post;
    assert FileViewUrl(endpoint, bucket, f2, project) == pre + f2 + post;
    if pre + f1 + post == pre + f2 + post {
      SameFrame(pre, f1, f2, post);
    }
  }

  /** For one file id, two view URLs agree exactly when their buckets do. */
  lemma FileViewUrlBucket(endpoint: string, b1: string, b2: string, fileId: string, project: string)
    ensures FileViewUrl(endpoint, b1, fileId, project) == FileViewUrl(endpoint, b2, fileId, project)
      <==> b1 == b2
  {
    var pre := endpoint + "/storage/buckets/";
    var post := "/files/" + fileId + "/view?project=" + project;
    assert FileViewUrl(endpoint, b1, fileId, project) == pre + b1 + post;
    assert FileViewUrl(endpoint, b2, fileId, project) == pre + b2 + post;
    if pre + b1 + post == pre + b2 + post {
      SameFrame(pre, b1, b2, post);
    }
  }

  // ---------------------------------------------------------------------------
  // Calls, responses, results

  /** A list query; the console only ever asks for `Query.orderDesc(attribute)`. */
  datatype Query = OrderDesc(attribute: string)

  datatype Call =
    | CreateFile(bucket: string, fileId: string, fileName: string)
    | DeleteFile(bucket: string, fileId: string)
    | CreateDocument(database: string, collection: string, documentId: string, data: Doc)
    | UpdateDocument(database: string, collection: string, documentId: string, data: Doc)
    | DeleteDocument(database: string, collection: string, documentId: string)
    | GetDocument(database: string, collection: string, documentId: string)
    | ListDocuments(database: string, collection: string, queries: seq<Query>)
    | GetAccount
    | DeleteSession(sessionId: string)

  /** The backend either answers with a document or rejects with an error message. */
  datatype Response = Done(doc: Doc) | Rejected(message: string)

  /** What an operation hands back to its caller: a value, or a thrown `Error` with its message. */
  datatype Result<T> = Success(value: T) | Failure(message: string)

  /**
   * One request inside the services' `try { return await … } catch (error)
   * { throw new Error(prefix + error.message) }`: the call is made once and
   * a rejection comes back with the operation's prefix in front of the
   * backend's message.
   */
  method Invoke(respond: Call -> Response, c: Call, prefix: string) returns (calls: seq<Call>, r: Result<Doc>)
    ensures calls == [c]
    ensures respond(c).Done? ==> r == Success(respond(c).doc)
    ensures respond(c).Rejected? ==> r == Failure(prefix + respond(c).message)
  {
    calls := [c];
    match respond(c)
    case Done(d) => r := Success(d);
    case Rejected(m) => r := Failure(prefix + m);
  }

  /**
   * The trace of an `await` sequence inside one `try`: every request before
   * the last was answered, so a rejection ends the sequence.
   */
  ghost predicate StopsAtRejection(respond: Call -> Response, calls: seq<Call>) {
    forall j :: 0 <= j < |calls| - 1 ==> respond(calls[j]).Done?
  }

  /** Appending a trace to a request log keeps the log as its prefix and ends with the trace's last request. */
  lemma AppendedTrace(log: seq<Call>, trace: seq<Call>)
    ensures |log + trace| == |log| + |trace| && (log + trace)[..|log|] == log
    ensures trace != [] ==> (log + trace)[|log + trace| - 1] == trace[|trace| - 1]
    ensures (log + trace)[|log|..] == trace
  {
    assert (log + trace)[..|log|] == log;
    assert (log + trace)[|log|..] == trace;
  }
}
