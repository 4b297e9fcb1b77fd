/**
 * The post service's gRPC server interceptor: it takes the caller's identity
 * from the `x-user-id` metadata entry, without any cryptographic check, and
 * lets calls without one run unauthenticated.
 */
module Interceptor {
  import opened Wrappers
  import opened Grpc

  const UserIDMetadataKey: string := "x-user-id"

  /** gRPC metadata: lower-case keys, each with its list of values. */
  type Metadata = map<string, seq<string>>

  /** `md.Get(key)` for a lower-case key: its values, or none. */
  function Get(md: Metadata, key: string): (vs: seq<string>)
    ensures key in md ==> vs == md[key]
    ensures key !in md ==> vs == []
  {
    if key in md then md[key] else []
  }

  /**
   * A server-side call context: the incoming metadata, if the transport attached
   * any, and the value stored under the package's private user-id key, if any.
   */
  datatype Context = Context(incoming: Option<Metadata>, userID: Option<string>)

  /** The first value under `x-user-id`, or "" when there is none. */
  function FirstUserID(md: Metadata): (id: string)
    ensures Get(md, UserIDMetadataKey) == [] ==> id == []
    ensures Get(md, UserIDMetadataKey) != [] ==> id == Get(md, UserIDMetadataKey)[0]
  {
    var values := Get(md, UserIDMetadataKey);
    if |values| > 0 then values[0] else []
  }

  /** The context `AuthInterceptor` hands to the handler. */
  function HandlerContext(ctx: Context): (r: Context)
    ensures r.incoming == ctx.incoming
    ensures ctx.incoming.None? ==> r == ctx
    ensures ctx.incoming.Some? && FirstUserID(ctx.incoming.value) == [] ==> r == ctx
    ensures ctx.incoming.Some? && FirstUserID(ctx.incoming.value) != [] ==>
      r.userID == Some(FirstUserID(ctx.incoming.value))
  {
    match ctx.incoming
    case None => ctx
    case Some(md) =>
      var userID := FirstUserID(md);
      if userID == [] then ctx
      else ctx.(userID := Some(userID))
  }

  /** `AuthInterceptor`: never refuses the call; it runs the handler on the derived context. */
  function AuthInterceptor<R>(ctx: Context, handler: Context -> R): (r: R)
    ensures r == handler(HandlerContext(ctx))
  {
    handler(HandlerContext(ctx))
  }

  const ErrNoUserID: Error := StatusError(Unauthenticated, "user ID not found in context")

  /** `GetUserIDFromContext`. */
  function GetUserIDFromContext(ctx: Context): (r: Result<string, Error>)
    ensures r.Ok? <==> ctx.userID.Some? && ctx.userID.value != []
    ensures r.Ok? ==> r.value == ctx.userID.value && r.value != []
    ensures r.Err? ==> r.error == ErrNoUserID
  {
    match ctx.userID
    case Some(id) => if id == [] then Err(ErrNoUserID) else Ok(id)
    case None => Err(ErrNoUserID)
  }

  /**
   * On a fresh call (nothing stored yet) the handler sees an identity exactly
   * when the first `x-user-id` value is non-empty, and sees that value.
   */
  lemma IdentityComesFromFirstValue(md: Metadata)
    ensures var r := GetUserIDFromContext(HandlerContext(Context(Some(md), None)));
      && (r.Ok? <==> FirstUserID(md) != [])
      && (r.Ok? ==> r.value == Get(md, UserIDMetadataKey)[0])
      && (r.Err? ==> r.error == ErrNoUserID)
  {
  }

  /** Without incoming metadata the call runs unauthenticated. */
  lemma NoMetadataIsUnauthenticated()
    ensures GetUserIDFromContext(HandlerContext(Context(None, None))) == Err(ErrNoUserID)
  {
  }
}
