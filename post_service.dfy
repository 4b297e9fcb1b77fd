/**
 * The post service's operations on posts: identity from the call context,
 * argument checks, the author and visibility rules, and the mapping of
 * repository errors to gRPC statuses. The service's own `utils` package is
 * not part of this model; its checks are taken to be the gateway's.
 */
module PostService {
  import opened Wrappers
  import opened GoAny
  import opened Grpc
  import opened Strconv
  import opened Interceptor
  import opened GatewayValidators
  import opened PostModels
  import opened PostRepository
  import PostProto

  /** `ToProtoPost`: the wire form carries every field unchanged. */
  function ToProtoPost(post: Post): (m: PostProto.Post)
    ensures m.id == post.id && m.userId == post.userId && m.title == post.title
    ensures m.description == post.description && m.isPrivate == post.isPrivate && m.tags == post.tags
    ensures m.createdAt == post.createdAt && m.updatedAt == post.updatedAt
  {
    PostProto.Post(post.id, post.userId, post.title, post.description,
                   post.createdAt, post.updatedAt, post.isPrivate, post.tags)
  }

  function RepoErrorText(e: RepoError): string
  {
    match e
    case ErrPostNotFound => "post not found"
    case ErrForbidden => "forbidden"
    case DbError(m) => m
  }

  /** `handleRepoError`: the two sentinels become NotFound and PermissionDenied, anything else Internal. */
  function HandleRepoError(err: Option<RepoError>, operation: string, postID: string): (r: Option<Error>)
    ensures err.None? <==> r.None?
    ensures err == Some(ErrPostNotFound) ==> r == Some(StatusError(NotFound, "post " + postID + " not found"))
    ensures err == Some(ErrForbidden) ==> r == Some(StatusError(PermissionDenied, "permission denied"))
    ensures err.Some? && err.value.DbError? ==>
      r.Some? && r.value.StatusError? && r.value.code == Internal
    ensures r.Some? ==> r.value.StatusError? && r.value.code in {NotFound, PermissionDenied, Internal}
  {
    match err
    case None => None
    case Some(ErrPostNotFound) => Some(StatusError(NotFound, "post " + postID + " not found"))
    case Some(ErrForbidden) => Some(StatusError(PermissionDenied, "permission denied"))
    case Some(e) =>
      Some(StatusError(Internal, "failed to " + operation + " post " + postID + ": " + RepoErrorText(e)))
  }

  const ErrPostIDRequired: Error := StatusError(InvalidArgument, "post ID is required")
  const ErrTitleRequired: Error := StatusError(InvalidArgument, "title is required")
  const ErrTitleEmpty: Error := StatusError(InvalidArgument, "title cannot be empty")
  const ErrCannotView: Error := StatusError(PermissionDenied, "you do not have permission to view this post")
  const ErrNotAuthor: Error := StatusError(PermissionDenied, "you are not authorized to update this post")

  /** The caller, once identified and found to be a well-formed user id. */
  function Caller(ctx: Context): (r: Result<string, Error>)
    ensures r.Ok? <==> GetUserIDFromContext(ctx).Ok? && IsUuid(GetUserIDFromContext(ctx).value)
    ensures r.Ok? ==> r.value == ctx.userID.value
    ensures GetUserIDFromContext(ctx).Err? ==> r == Err(ErrNoUserID)
    ensures GetUserIDFromContext(ctx).Ok? && r.Err? ==> r == Err(ErrInvalidUserID)
  {
    match GetUserIDFromContext(ctx)
    case Err(e) => Err(e)
    case Ok(userID) =>
      match ValidateUserID(Str(userID))
      case Some(e) => Err(e)
      case None => Ok(userID)
  }

  /** A post id argument: present, then well formed. */
  function CheckPostID(postID: string): (r: Option<Error>)
    ensures r.None? <==> IsUuid(postID)
    ensures postID == [] ==> r == Some(ErrPostIDRequired)
    ensures postID != [] && r.Some? ==> r == Some(ErrInvalidPostID)
  {
    if postID == [] then Some(ErrPostIDRequired)
    else ValidatePostID(Str(postID))
  }

  /** Who may read a post: anyone if it is public, only its author if it is private. */
  function MayView(post: Post, ctx: Context): (r: bool)
    ensures r <==> !post.isPrivate || (ctx.userID == Some(post.userId) && post.userId != [])
  {
    !post.isPrivate || (GetUserIDFromContext(ctx).Ok? && GetUserIDFromContext(ctx).value == post.userId)
  }

  /** The record `UpdatePost` writes. */
  function UpdateRecord(req: PostProto.UpdatePostRequest, userID: string): (p: Post)
    ensures p.id == req.postId && p.userId == userID && p.title == req.title
    ensures p.description == req.description && p.isPrivate == req.isPrivate && p.tags == req.tags
  {
    Post(req.postId, userID, req.title, req.description, 0, 0, req.isPrivate, req.tags)
  }

  /** Page bounds the service accepts keep the repository's offset exact and non-negative. */
  lemma OffsetOfValidPage(page: PostProto.Int32, pageSize: PostProto.Int32)
    requires page >= 1 && pageSize >= 1
    ensures Offset(page, pageSize) == (page - 1) * pageSize >= 0
  {
    var a: int := page - 1;
    assert Wrap64(page - 1) == a;
    var product := a * pageSize;
    assert 0 <= product < 0x4000_0000_0000_0000 by { ProductOfInt32s(a, pageSize); }
    assert Wrap64(product) == product;
  }

  /** Two non-negative 32-bit values multiply to less than 2^62. */
  lemma ProductOfInt32s(a: nat, b: nat)
    requires a < 0x8000_0000 && b < 0x8000_0000
    ensures a * b < 0x4000_0000_0000_0000
  {
    MulMonotone(a, b, 0x8000_0000);
    MulMonotone(0x8000_0000, a, 0x8000_0000);
  }

  lemma MulMonotone(a: nat, b: nat, c: nat)
    requires b <= c
    ensures a * b <= a * c
  {
  }

  /** With a valid page and size the repository's listing query succeeds. */
  lemma ValidPageIsListed(repo: PostRepo, userID: string, page: PostProto.Int32, pageSize: PostProto.Int32)
    requires page >= 1 && pageSize >= 1
    ensures repo.ListUserPosts(userID, page, pageSize).Ok?
  {
    OffsetOfValidPage(page, pageSize);
  }

  /** The conversion loop at the end of the listings: one wire post per row, in order. */
  method ToProtoPosts(rows: seq<Post>) returns (protoPosts: seq<PostProto.Post>)
    ensures |protoPosts| == |rows|
    ensures forall k | 0 <= k < |rows| :: protoPosts[k] == ToProtoPost(rows[k])
  {
    protoPosts := [];
    var i := 0;
    while i < |rows|
      invariant 0 <= i <= |rows|
      invariant |protoPosts| == i
      invariant forall k | 0 <= k < i :: protoPosts[k] == ToProtoPost(rows[k])
    {
      protoPosts := protoPosts + [ToProtoPost(rows[i])];
      i := i + 1;
    }
  }

  class PostsService {
    const repo: PostRepo

    constructor(repo: PostRepo)
      ensures this.repo == repo
    {
      this.repo := repo;
    }

    /**
     * `CreatePost`: the caller, then a non-empty title; the post is stored
     * under the store's id and read back.
     */
    method CreatePost(ctx: Context, req: PostProto.CreatePostRequest, newID: string, now: int)
      returns (r: Result<Post, Error>)
      modifies repo
      ensures Caller(ctx).Err? ==> r == Err(Caller(ctx).error) && repo.rows == old(repo.rows)
      ensures Caller(ctx).Ok? && req.title == [] ==> r == Err(ErrTitleRequired) && repo.rows == old(repo.rows)
      ensures r.Ok? <==> Caller(ctx).Ok? && req.title != []
      ensures r.Ok? ==>
        && repo.rows == old(repo.rows) + [Post(newID, Caller(ctx).value, req.title, req.description, now, now, req.isPrivate, req.tags)]
        && repo.GetPostByID(newID).Ok? && r.value == repo.GetPostByID(newID).value
    {
      var caller := Caller(ctx);
      if caller.Err? {
        return Err(caller.error);
      }
      if req.title == [] {
        return Err(ErrTitleRequired);
      }
      var newPost := Post([], caller.value, req.title, req.description, 0, 0, req.isPrivate, req.tags);
      var postID := repo.CreatePost(newPost, newID, now);
      newPost := newPost.(id := postID);
      assert newPost.(createdAt := now, updatedAt := now) in repo.rows;
      var created := repo.GetPostByID(postID);
      if created.Err? {
        // the row was just inserted, so reading it back succeeds
        assert false;
      }
      r := Ok(created.value);
    }

    /**
     * `GetPost`: the id must be present and well formed, the post must
     * exist, and a private post is shown only to its author.
     */
    function GetPost(ctx: Context, postID: string): (r: Result<Post, Error>)
      reads repo
      ensures CheckPostID(postID).Some? ==> r == Err(CheckPostID(postID).value)
      ensures CheckPostID(postID).None? && repo.GetPostByID(postID).Err? ==>
        r == Err(StatusError(NotFound, "post " + postID + " not found"))
      ensures r.Ok? <==>
        CheckPostID(postID).None? && repo.GetPostByID(postID).Ok? && MayView(repo.GetPostByID(postID).value, ctx)
      ensures r.Ok? ==> r.value == repo.GetPostByID(postID).value
      ensures CheckPostID(postID).None? && repo.GetPostByID(postID).Ok? && !MayView(repo.GetPostByID(postID).value, ctx) ==>
        r == Err(ErrCannotView)
    {
      if CheckPostID(postID).Some? then Err(CheckPostID(postID).value)
      else
        match repo.GetPostByID(postID)
        case Err(e) => Err(HandleRepoError(Some(e), "get", postID).value)
        case Ok(post) =>
          if !post.isPrivate then Ok(post)
          else
            // the only error GetUserIDFromContext returns is ErrNoUserID, which
            // errors.Is matches, so the early return for other errors never fires
            var caller := GetUserIDFromContext(ctx);
            var requester := if caller.Ok? then caller.value else [];
            if requester == [] || post.userId != requester then Err(ErrCannotView)
            else Ok(post)
    }

    /**
     * `UpdatePost`: the caller, the post id, a non-empty title, the post's
     * existence and then its author are checked, in that order; only the
     * author's update reaches the table.
     */
    method UpdatePost(ctx: Context, req: PostProto.UpdatePostRequest, now: int) returns (r: Result<Post, Error>)
      modifies repo
      ensures r.Err? ==> repo.rows == old(repo.rows)
      ensures Caller(ctx).Err? ==> r == Err(Caller(ctx).error)
      ensures Caller(ctx).Ok? && CheckPostID(req.postId).Some? ==> r == Err(CheckPostID(req.postId).value)
      ensures Caller(ctx).Ok? && CheckPostID(req.postId).None? && req.title == [] ==> r == Err(ErrTitleEmpty)
      ensures Caller(ctx).Ok? && CheckPostID(req.postId).None? && req.title != [] ==>
        (old(repo.GetPostAuthorID(req.postId)).Err? ==> r == Err(StatusError(NotFound, "post " + req.postId + " not found")))
        && (old(repo.GetPostAuthorID(req.postId)).Ok? && old(repo.GetPostAuthorID(req.postId)).value != Caller(ctx).value ==>
              r == Err(ErrNotAuthor))
      ensures r.Ok? <==>
        && Caller(ctx).Ok? && CheckPostID(req.postId).None? && req.title != []
        && old(repo.GetPostAuthorID(req.postId)) == Ok(Caller(ctx).value)
      ensures r.Ok? ==>
        && repo.rows == UpdateRows(old(repo.rows), UpdateRecord(req, Caller(ctx).value), now)
        && repo.GetPostByID(req.postId).Ok? && r.value == repo.GetPostByID(req.postId).value
    {
      var caller := Caller(ctx);
      if caller.Err? {
        return Err(caller.error);
      }
      var userID := caller.value;
      var postID := req.postId;
      var badID := CheckPostID(postID);
      if badID.Some? {
        return Err(badID.value);
      }
      if req.title == [] {
        return Err(ErrTitleEmpty);
      }
      var author := repo.GetPostAuthorID(postID);
      if author.Err? {
        return Err(HandleRepoError(Some(author.error), "check author for update", postID).value);
      }
      if author.value != userID {
        return Err(ErrNotAuthor);
      }
      var record := UpdateRecord(req, userID);
      var err := repo.UpdatePost(record, now);
      if err.Some? {
        // the author lookup just found the row
        assert false;
      }
      var updated := repo.GetPostByID(postID);
      if updated.Err? {
        // the update kept the row
        assert false;
      }
      r := Ok(updated.value);
    }

    /** `DeletePost`: the caller and the post id, then the repository's owner-filtered delete. */
    method DeletePost(ctx: Context, postID: string) returns (err: Option<Error>)
      modifies repo
      ensures Caller(ctx).Err? ==> err == Some(Caller(ctx).error) && repo.rows == old(repo.rows)
      ensures Caller(ctx).Ok? && CheckPostID(postID).Some? ==> err == CheckPostID(postID) && repo.rows == old(repo.rows)
      ensures Caller(ctx).Ok? && CheckPostID(postID).None? ==>
        var owner := Caller(ctx).value;
        && (err.None? <==> exists p | p in old(repo.rows) :: p.id == postID && p.userId == owner)
        && (err.None? ==> repo.rows == Where(old(repo.rows), NotOwned(postID, owner)))
        && (err.Some? ==> repo.rows == old(repo.rows))
        && ((forall p | p in old(repo.rows) :: p.id != postID) ==>
              err == Some(StatusError(NotFound, "post " + postID + " not found")))
        && ((exists p | p in old(repo.rows) :: p.id == postID) && err.Some? ==>
              err == Some(StatusError(PermissionDenied, "permission denied")))
    {
      var caller := Caller(ctx);
      if caller.Err? {
        return Some(caller.error);
      }
      var badID := CheckPostID(postID);
      if badID.Some? {
        return badID;
      }
      var e := repo.DeletePost(postID, caller.value);
      err := HandleRepoError(e, "delete", postID);
    }

    /**
     * `ListMyPosts`: the caller, then the page and page size (both judged by
     * the page check), then one page of the caller's posts converted to the
     * wire form in order.
     */
    method ListMyPosts(ctx: Context, req: PostProto.ListMyPostsRequest)
      returns (posts: seq<PostProto.Post>, total: int, err: Option<Error>)
      ensures Caller(ctx).Err? ==> err == Some(Caller(ctx).error)
      ensures Caller(ctx).Ok? && (req.page < 1 || req.pageSize < 1) ==> err == Some(ErrInvalidPage)
      ensures err.Some? ==> posts == [] && total == 0
      ensures err.None? <==> Caller(ctx).Ok? && req.page >= 1 && req.pageSize >= 1
      ensures err.None? ==>
        var listing := repo.ListUserPosts(Caller(ctx).value, req.page, req.pageSize);
        && listing.Ok?
        && total == listing.value.total
        && |posts| == |listing.value.posts|
        && forall k | 0 <= k < |posts| :: posts[k] == ToProtoPost(listing.value.posts[k])
    {
      var caller := Caller(ctx);
      if caller.Err? {
        return [], 0, Some(caller.error);
      }
      var userID := caller.value;
      var page: int := req.page;
      ValidatePageOfItoa(page);
      var (_, pageErr) := ValidatePage(Itoa(page));
      if pageErr.Some? {
        return [], 0, pageErr;
      }
      var pageSize: int := req.pageSize;
      ValidatePageOfItoa(pageSize);
      var (_, sizeErr) := ValidatePage(Itoa(pageSize));
      if sizeErr.Some? {
        return [], 0, sizeErr;
      }
      ValidPageIsListed(repo, userID, req.page, req.pageSize);
      var listing := repo.ListUserPosts(userID, page, pageSize);
      if listing.Err? {
        // the repository refuses only a negative offset or limit
        assert false;
      }
      var protoPosts := ToProtoPosts(listing.value.posts);
      return protoPosts, listing.value.total, None;
    }
  }
}
