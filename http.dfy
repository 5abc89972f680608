/**
 * What the login and registration pages see of a `fetch`: a thrown network error, or a response
 * with its `ok` flag, status and JSON body. A body that does not parse arrives as `{}`, as the
 * pages' `.catch(() => ({}))` makes it.
 */
module Http {
  import opened Json

  datatype Reply =
    | NetworkError
    | Response(ok: bool, status: nat, data: Json)

  /** The message both pages show when `fetch` throws or the handler itself throws. */
  const NetworkMessage := "Network error. Try again."
}
