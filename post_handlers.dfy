/**
 * The request-shaping part of the gateway's post handlers: the outgoing
 * identity metadata, pagination parsing, and the checks each handler makes
 * before forwarding a call to the post service.
 */
module PostHandlers {
  import opened Wrappers
  import opened GoAny
  import opened Grpc
  import opened Strconv
  import opened GrpcErrors
  import opened PostProto
  import Interceptor

  /** An HTTP reply body: `{"error": "<text>"}`, or `{"error": {}}`, which is what an error value marshals to. */
  datatype Body = ErrorText(text: string) | EmptyErrorObject

  datatype Reply = Reply(status: int, body: Body)

  /** A call forwarded to the post service, with its outgoing metadata. */
  datatype Call<Req> = Call(metadata: Interceptor.Metadata, request: Req)

  /** The replies a handler wrote, in order, and the call it then made, if any. */
  datatype Handled<Req> = Handled(written: seq<Reply>, call: Option<Call<Req>>)

  /** The JSON body of an update: each field may be absent. */
  datatype UpdateBody = UpdateBody(
    title: Option<string>, description: Option<string>, isPrivate: Option<bool>, tags: seq<string>)

  /** `int32(n)`: two's-complement truncation to 32 bits. */
  function ToInt32(n: int): (r: Int32)
    ensures -0x8000_0000 <= n < 0x8000_0000 ==> r == n
    ensures (r - n) % 0x1_0000_0000 == 0
  {
    var m := n % 0x1_0000_0000;
    if m >= 0x8000_0000 then m - 0x1_0000_0000 else m
  }

  /**
   * `createAuthContext`: the outgoing metadata for the `userID` that the
   * authentication middleware stored on the request (absent, or any value).
   */
  function CreateAuthContext(userID: Option<Value>): (r: Result<Interceptor.Metadata, Error>)
    ensures r.Ok? <==> userID.Some? && userID.value.Str? && userID.value.s != []
    ensures r.Ok? ==> r.value == map[Interceptor.UserIDMetadataKey := [userID.value.s]]
    ensures userID.None? ==>
      r == Err(StatusError(Internal, "internal error: user ID missing after auth middleware"))
    ensures userID.Some? && r.Err? ==>
      r == Err(StatusError(Internal, "internal error: invalid user ID format in context"))
  {
    match userID
    case None => Err(StatusError(Internal, "internal error: user ID missing after auth middleware"))
    case Some(v) =>
      if !v.Str? || v.s == [] then Err(StatusError(Internal, "internal error: invalid user ID format in context"))
      else Ok(map[Interceptor.UserIDMetadataKey := [v.s]])
  }

  const PageError: Error := PlainError("page must be a positive integer")
  const PageSizeError: Error := PlainError("page_size must be a positive integer")

  /** A positive decimal integer, as `strconv.Atoi` reads it. */
  predicate PositiveInt(text: string)
  {
    Atoi(text).Some? && Atoi(text).value >= 1
  }

  /**
   * `parsePagination` on the `page` and `page_size` query parameters (absent
   * ones default to "1" and "10"): the page is judged first.
   */
  function ParsePagination(page: Option<string>, pageSize: Option<string>): (r: Result<(int, int), Error>)
    ensures var p := if page.Some? then page.value else "1";
            var ps := if pageSize.Some? then pageSize.value else "10";
      && (r.Ok? <==> PositiveInt(p) && PositiveInt(ps))
      && (r.Ok? ==> r.value == (Atoi(p).value, Atoi(ps).value))
      && (!PositiveInt(p) ==> r == Err(PageError))
      && (PositiveInt(p) && !PositiveInt(ps) ==> r == Err(PageSizeError))
  {
    var pageText := if page.Some? then page.value else Itoa(1);
    var pageSizeText := if pageSize.Some? then pageSize.value else Itoa(10);
    assert Itoa(1) == "1";
    assert Itoa(10) == "10" by { assert Digits(1) == "1"; }
    var p := Atoi(pageText);
    var ps := Atoi(pageSizeText);
    if p.None? || p.value < 1 then Err(PageError)
    else if ps.None? || ps.value < 1 then Err(PageSizeError)
    else Ok((p.value, ps.value))
  }

  /** With neither parameter given the defaults are page 1 of size 10. */
  lemma DefaultPagination()
    ensures ParsePagination(None, None) == Ok((1, 10))
  {
    AtoiOfItoa(1);
    AtoiOfItoa(10);
    assert Digits(1) == "1";
  }

  /** The error reply for a failed identity or downstream step. */
  function ErrorReply(e: Error): (r: Reply)
    ensures 400 <= r.status < 600
    ensures r == Reply(MapGrpcError(Some(e)).value.status, ErrorText(MapGrpcError(Some(e)).value.message))
    ensures e.StatusError? && e.code == Internal ==> r == Reply(500, ErrorText(DownstreamInternal))
  {
    AnswersAreErrors(e);
    var h := MapGrpcError(Some(e)).value;
    Reply(h.status, ErrorText(h.message))
  }

  /**
   * `CreatePost`: a bad body or an empty title is answered with 400 before the
   * identity is looked at; otherwise the request is forwarded unchanged.
   */
  function CreatePost(body: Result<CreatePostRequest, string>, userID: Option<Value>)
    : (h: Handled<CreatePostRequest>)
    ensures h.call.Some? <==> body.Ok? && body.value.title != [] && CreateAuthContext(userID).Ok?
    ensures h.call.Some? ==> h.written == [] && h.call.value == Call(CreateAuthContext(userID).value, body.value)
    ensures h.call.None? ==> |h.written| == 1
    ensures body.Err? ==> h == Handled([Reply(400, ErrorText("Invalid request body: " + body.error))], None)
    ensures body.Ok? && body.value.title == [] ==> h == Handled([Reply(400, ErrorText("title is required"))], None)
    ensures body.Ok? && body.value.title != [] && CreateAuthContext(userID).Err? ==>
      h == Handled([ErrorReply(CreateAuthContext(userID).error)], None)
  {
    match body
    case Err(msg) => Handled([Reply(400, ErrorText("Invalid request body: " + msg))], None)
    case Ok(req) =>
      if req.title == [] then Handled([Reply(400, ErrorText("title is required"))], None)
      else
        match CreateAuthContext(userID)
        case Err(e) => Handled([ErrorReply(e)], None)
        case Ok(md) => Handled([], Some(Call(md, req)))
  }

  /**
   * `UpdatePost`: the forwarded request starts from the post id and tags and
   * takes each field only when the body supplies it; a supplied but empty title
   * or description is answered with 400.
   */
  method UpdatePost(postID: string, body: Result<UpdateBody, string>, userID: Option<Value>)
    returns (h: Handled<UpdatePostRequest>)
    ensures h.call.Some? <==>
      && postID != [] && body.Ok? && body.value.title != Some([]) && body.value.description != Some([])
      && CreateAuthContext(userID).Ok?
    ensures h.call.Some? ==>
      var b := body.value;
      && h.written == []
      && h.call.value.metadata == CreateAuthContext(userID).value
      && h.call.value.request == UpdatePostRequest(
           postID,
           if b.title.Some? then b.title.value else [],
           if b.description.Some? then b.description.value else [],
           b.isPrivate == Some(true),
           b.tags)
    ensures h.call.None? ==> |h.written| == 1 && 400 <= h.written[0].status
    ensures postID == [] ==> h == Handled([Reply(400, ErrorText("Post ID parameter is required"))], None)
    ensures postID != [] && body.Err? ==>
      h == Handled([Reply(400, ErrorText("Invalid request body: " + body.error))], None)
    ensures postID != [] && body.Ok? && body.value.title == Some([]) ==>
      h == Handled([Reply(400, ErrorText("title cannot be empty if provided"))], None)
    ensures postID != [] && body.Ok? && body.value.title != Some([]) && body.value.description == Some([]) ==>
      h == Handled([Reply(400, ErrorText("description cannot be empty if provided"))], None)
    ensures postID != [] && body.Ok? && body.value.title != Some([]) && body.value.description != Some([])
            && CreateAuthContext(userID).Err? ==>
      h == Handled([ErrorReply(CreateAuthContext(userID).error)], None)
  {
    if postID == [] {
      return Handled([Reply(400, ErrorText("Post ID parameter is required"))], None);
    }
    if body.Err? {
      return Handled([Reply(400, ErrorText("Invalid request body: " + body.error))], None);
    }
    var b := body.value;
    var req := UpdatePostRequest(postID, [], [], false, b.tags);
    if b.title.Some? {
      req := req.(title := b.title.value);
      if req.title == [] {
        return Handled([Reply(400, ErrorText("title cannot be empty if provided"))], None);
      }
    }
    if b.description.Some? {
      req := req.(description := b.description.value);
      if req.description == [] {
        return Handled([Reply(400, ErrorText("description cannot be empty if provided"))], None);
      }
    }
    if b.isPrivate.Some? {
      req := req.(isPrivate := b.isPrivate.value);
    }
    var md := CreateAuthContext(userID);
    if md.Err? {
      return Handled([ErrorReply(md.error)], None);
    }
    h := Handled([], Some(Call(md.value, req)));
  }

  /** `GetPost`: forward `{post_id}` once the path parameter and the identity are there. */
  function GetPost(postID: string, userID: Option<Value>): (h: Handled<GetPostRequest>)
    ensures h.call.Some? <==> postID != [] && CreateAuthContext(userID).Ok?
    ensures h.call.Some? ==> h.written == [] && h.call.value == Call(CreateAuthContext(userID).value, GetPostRequest(postID))
    ensures postID == [] ==> h == Handled([Reply(400, ErrorText("Post ID parameter is required"))], None)
    ensures postID != [] && CreateAuthContext(userID).Err? ==>
      h == Handled([ErrorReply(CreateAuthContext(userID).error)], None)
  {
    if postID == [] then Handled([Reply(400, ErrorText("Post ID parameter is required"))], None)
    else
      match CreateAuthContext(userID)
      case Err(e) => Handled([ErrorReply(e)], None)
      case Ok(md) => Handled([], Some(Call(md, GetPostRequest(postID))))
  }

  /** `DeletePost`: the same shape as GetPost. */
  function DeletePost(postID: string, userID: Option<Value>): (h: Handled<DeletePostRequest>)
    ensures h.call.Some? <==> postID != [] && CreateAuthContext(userID).Ok?
    ensures h.call.Some? ==> h.written == [] && h.call.value == Call(CreateAuthContext(userID).value, DeletePostRequest(postID))
    ensures postID == [] ==> h == Handled([Reply(400, ErrorText("Post ID parameter is required"))], None)
    ensures postID != [] && CreateAuthContext(userID).Err? ==>
      h == Handled([ErrorReply(CreateAuthContext(userID).error)], None)
  {
    if postID == [] then Handled([Reply(400, ErrorText("Post ID parameter is required"))], None)
    else
      match CreateAuthContext(userID)
      case Err(e) => Handled([ErrorReply(e)], None)
      case Ok(md) => Handled([], Some(Call(md, DeletePostRequest(postID))))
  }

  /**
   * `GetMyPosts`: a pagination error is answered with 400 (its body is the
   * error value, which marshals to `{}`) and nothing is forwarded.
   */
  function GetMyPosts(page: Option<string>, pageSize: Option<string>, userID: Option<Value>)
    : (h: Handled<ListMyPostsRequest>)
    ensures ParsePagination(page, pageSize).Err? ==> h == Handled([Reply(400, EmptyErrorObject)], None)
    ensures h.call.Some? <==> ParsePagination(page, pageSize).Ok? && CreateAuthContext(userID).Ok?
    ensures h.call.Some? ==>
      var (p, ps) := ParsePagination(page, pageSize).value;
      h.written == [] && h.call.value == Call(CreateAuthContext(userID).value, ListMyPostsRequest(ToInt32(p), ToInt32(ps)))    ensures ParsePagination(page, pageSize).Ok? && CreateAuthContext(userID).Err? ==>
      h == Handled([ErrorReply(CreateAuthContext(userID).error)], None)
  {
    match ParsePagination(page, pageSize)
    case Err(_) => Handled([Reply(400, EmptyErrorObject)], None)
    case Ok((p, ps)) =>
      match CreateAuthContext(userID)
      case Err(e) => Handled([ErrorReply(e)], None)
      case Ok(md) => Handled([], Some(Call(md, ListMyPostsRequest(ToInt32(p), ToInt32(ps)))))
  }

  /** `GetAllPublicPosts`: as GetMyPosts, with no user filter. */
  function GetAllPublicPosts(page: Option<string>, pageSize: Option<string>, userID: Option<Value>)
    : (h: Handled<ListPublicPostsRequest>)
    ensures ParsePagination(page, pageSize).Err? ==> h == Handled([Reply(400, EmptyErrorObject)], None)
    ensures h.call.Some? <==> ParsePagination(page, pageSize).Ok? && CreateAuthContext(userID).Ok?
    ensures h.call.Some? ==>
      var (p, ps) := ParsePagination(page, pageSize).value;
      h.written == [] && h.call.value == Call(CreateAuthContext(userID).value, ListPublicPostsRequest(ToInt32(p), ToInt32(ps), None))    ensures ParsePagination(page, pageSize).Ok? && CreateAuthContext(userID).Err? ==>
      h == Handled([ErrorReply(CreateAuthContext(userID).error)], None)
  {
    match ParsePagination(page, pageSize)
    case Err(_) => Handled([Reply(400, EmptyErrorObject)], None)
    case Ok((p, ps)) =>
      match CreateAuthContext(userID)
      case Err(e) => Handled([ErrorReply(e)], None)
      case Ok(md) => Handled([], Some(Call(md, ListPublicPostsRequest(ToInt32(p), ToInt32(ps), None))))
  }

  /**
   * `GetUserPublicPosts`: after a pagination error the handler writes its 400
   * but does not return, so it goes on to forward page 0 of size 0.
   */
  function GetUserPublicPosts(targetUserID: string, page: Option<string>, pageSize: Option<string>, userID: Option<Value>)
    : (h: Handled<ListPublicPostsRequest>)
    ensures targetUserID == [] ==>
      h == Handled([Reply(400, ErrorText("User ID parameter (:userID) is required"))], None)
    ensures targetUserID != [] && ParsePagination(page, pageSize).Err? ==>
      && |h.written| >= 1 && h.written[0] == Reply(400, EmptyErrorObject)
      && (CreateAuthContext(userID).Ok? ==>
            h == Handled([Reply(400, EmptyErrorObject)],
                         Some(Call(CreateAuthContext(userID).value, ListPublicPostsRequest(0, 0, Some(targetUserID))))))
    ensures h.call.Some? <==> targetUserID != [] && CreateAuthContext(userID).Ok?
    ensures targetUserID != [] && CreateAuthContext(userID).Err? ==>
      var first := if ParsePagination(page, pageSize).Err? then [Reply(400, EmptyErrorObject)] else [];
      h == Handled(first + [ErrorReply(CreateAuthContext(userID).error)], None)
  {
    if targetUserID == [] then Handled([Reply(400, ErrorText("User ID parameter (:userID) is required"))], None)
    else
      var parsed := ParsePagination(page, pageSize);
      var (p, ps) := if parsed.Ok? then parsed.value else (0, 0);
      var first := if parsed.Err? then [Reply(400, EmptyErrorObject)] else [];
      match CreateAuthContext(userID)
      case Err(e) => Handled(first + [ErrorReply(e)], None)
      case Ok(md) => Handled(first, Some(Call(md, ListPublicPostsRequest(ToInt32(p), ToInt32(ps), Some(targetUserID)))))
  }

  /**
   * `GetUserPublicPosts` as its sibling handlers behave: a pagination error
   * ends the request with its 400 and nothing is forwarded.
   */
  function GetUserPublicPostsIntended(targetUserID: string, page: Option<string>, pageSize: Option<string>, userID: Option<Value>)
    : (h: Handled<ListPublicPostsRequest>)
    ensures targetUserID == [] ==>
      h == Handled([Reply(400, ErrorText("User ID parameter (:userID) is required"))], None)
    ensures targetUserID != [] && ParsePagination(page, pageSize).Err? ==> h == Handled([Reply(400, EmptyErrorObject)], None)
    ensures h.call.Some? <==> targetUserID != [] && ParsePagination(page, pageSize).Ok? && CreateAuthContext(userID).Ok?
    ensures h.call.Some? ==>
      var (p, ps) := ParsePagination(page, pageSize).value;
      h.written == [] && h.call.value == Call(CreateAuthContext(userID).value, ListPublicPostsRequest(ToInt32(p), ToInt32(ps), Some(targetUserID)))
    ensures |h.written| == 1 <==> h.call.None?
    ensures targetUserID != [] && ParsePagination(page, pageSize).Ok? && CreateAuthContext(userID).Err? ==>
      h == Handled([ErrorReply(CreateAuthContext(userID).error)], None)
  {
    if targetUserID == [] then Handled([Reply(400, ErrorText("User ID parameter (:userID) is required"))], None)
    else
      match ParsePagination(page, pageSize)
      case Err(_) => Handled([Reply(400, EmptyErrorObject)], None)
      case Ok((p, ps)) =>
        match CreateAuthContext(userID)
        case Err(e) => Handled([ErrorReply(e)], None)
        case Ok(md) => Handled([], Some(Call(md, ListPublicPostsRequest(ToInt32(p), ToInt32(ps), Some(targetUserID)))))
  }

  /**
   * A request without a usable identity is never the client's fault: every
   * handler then answers 500 with the generic downstream text.
   */
  lemma IdentityFailureIsInternal(userID: Option<Value>)
    requires CreateAuthContext(userID).Err?
    ensures ErrorReply(CreateAuthContext(userID).error) == Reply(500, ErrorText(DownstreamInternal))
  {
  }

  /** The handler as written and as intended differ only when the pagination is refused. */
  lemma IntendedAgreesOnReadablePages(targetUserID: string, page: Option<string>, pageSize: Option<string>, userID: Option<Value>)
    requires targetUserID == [] || ParsePagination(page, pageSize).Ok?
    ensures GetUserPublicPosts(targetUserID, page, pageSize, userID) == GetUserPublicPostsIntended(targetUserID, page, pageSize, userID)
  {
  }
}
