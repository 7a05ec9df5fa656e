/** `classAPI.uploadStudents` (vis-core-fe/src/services/api.js, lines 313-323), the one
    multipart call of the class façade. The other class calls are plain `apiRequest` calls. */
module ClassApi {
  import opened Wrappers
  import opened Json
  import opened Http
  import opened TokenStore
  import opened RequestLayer

  /** `classAPI.uploadStudents(className, file)`: a multipart POST with the file and the
      class name, and an empty header object. */
  function UploadOptions(className: string, fileName: string): Options
  {
    Options("POST", FormBody([("file", fileName), ("class_name", className)]), map[])
  }

  function UploadPath(className: string): string
  {
    "/api/classes/" + className + "/upload-students/"
  }

  /** No request of an upload call, first or replayed, carries a JSON content type; each
      carries the caller's bearer token exactly when one is stored (or was just refreshed). */
  lemma UploadIsMultipart(st: StoreState, n: nat, respond: (nat, Request) -> Reply, className: string, fileName: string)
    ensures var run := ApiSpec(st, n, respond, UploadPath(className), UploadOptions(className, fileName));
            && "Content-Type" !in run.fetched[0].headers
            && ("Authorization" in run.fetched[0].headers <==> Present(st.access))
            && (|run.fetched| == 3 ==> "Content-Type" !in run.fetched[2].headers)
  {
  }

  /** `classAPI.uploadStudents(className, file)`. */
  method UploadStudents(store: Store, net: Network, className: string, fileName: string) returns (result: ApiResult)
    modifies store, net`sent
    ensures var run := ApiSpec(old(store.State()), |old(net.sent)|, net.respond,
                               UploadPath(className), UploadOptions(className, fileName));
            result == run.result && store.State() == run.store && net.sent == old(net.sent) + run.fetched
  {
    result := ApiRequest(store, net, UploadPath(className), UploadOptions(className, fileName));
  }
}
