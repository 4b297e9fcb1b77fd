/**
 * The `posts` table as an in-memory sequence of rows, in insertion order.
 * The store assigns ids and the `now()` timestamps; they come in as
 * arguments. No uniqueness of ids is assumed.
 */
module PostRepository {
  import opened Wrappers
  import opened Strconv
  import opened PostModels

  /** The repository's errors: its two sentinels, and a wrapped database error. */
  datatype RepoError = ErrPostNotFound | ErrForbidden | DbError(message: string)

  /** Go's 64-bit `int`. */
  type Int64 = x: int | MinInt64 <= x <= MaxInt64

  /** Two's-complement wrap-around of a product or difference to 64 bits. */
  function Wrap64(x: int): (r: Int64)
    ensures MinInt64 <= x <= MaxInt64 ==> r == x
    ensures (r - x) % 0x1_0000_0000_0000_0000 == 0
  {
    var m := x % 0x1_0000_0000_0000_0000;
    if m > MaxInt64 then m - 0x1_0000_0000_0000_0000 else m
  }

  /** The `WHERE` clauses the repository uses. */
  datatype Criterion = ByUser(userId: string) | Public | NotOwned(postId: string, userId: string)

  predicate Matches(p: Post, c: Criterion)
  {
    match c
    case ByUser(u) => p.userId == u
    case Public => !p.isPrivate
    case NotOwned(id, u) => !(p.id == id && p.userId == u)
  }

  /** The rows satisfying `c`, in table order. */
  function Where(rows: seq<Post>, c: Criterion): (r: seq<Post>)
    ensures forall p :: p in r <==> p in rows && Matches(p, c)
    ensures |r| <= |rows|
    ensures |r| == |rows| <==> forall p | p in rows :: Matches(p, c)
  {
    if rows == [] then []
    else if Matches(rows[0], c) then [rows[0]] + Where(rows[1..], c)
    else Where(rows[1..], c)
  }

  /** A filter every row passes keeps the table as it is. */
  lemma {:induction false} WhereOfAll(rows: seq<Post>, c: Criterion)
    requires forall p | p in rows :: Matches(p, c)
    ensures Where(rows, c) == rows
  {
    if rows != [] {
      assert rows[0] in rows;
      assert forall p | p in rows[1..] :: p in rows;
      WhereOfAll(rows[1..], c);
      assert rows == [rows[0]] + rows[1..];
    }
  }

  /** The first row with the id. */
  function FindByID(rows: seq<Post>, id: string): (r: Option<Post>)
    ensures r.Some? ==> r.value in rows && r.value.id == id
    ensures r.None? <==> forall p | p in rows :: p.id != id
  {
    if rows == [] then None
    else if rows[0].id == id then Some(rows[0])
    else FindByID(rows[1..], id)
  }

  // ---- ORDER BY created_at DESC ----

  /** Newest first; rows with equal creation times may come in any order. */
  predicate NewestFirst(s: seq<Post>)
  {
    forall i, j | 0 <= i < j < |s| :: s[i].createdAt >= s[j].createdAt
  }

  /** Places `p` before the first row that is not newer than it. */
  function Insert(p: Post, s: seq<Post>): (r: seq<Post>)
    ensures multiset(r) == multiset(s) + multiset{p}
    ensures |r| == |s| + 1
  {
    if s == [] || s[0].createdAt <= p.createdAt then [p] + s
    else
      assert s == [s[0]] + s[1..];
      [s[0]] + Insert(p, s[1..])
  }

  /** A row at least as new as every row of a sorted sequence can go in front of it. */
  lemma PrependKeepsOrder(x: Post, s: seq<Post>)
    requires NewestFirst(s)
    requires forall k | 0 <= k < |s| :: s[k].createdAt <= x.createdAt
    ensures NewestFirst([x] + s)
  {
    var r := [x] + s;
    forall i, j | 0 <= i < j < |r| ensures r[i].createdAt >= r[j].createdAt {
      if i == 0 {
        assert r[j] == s[j - 1];
      } else {
        assert r[i] == s[i - 1] && r[j] == s[j - 1];
      }
    }
  }

  lemma {:induction false} InsertKeepsOrder(p: Post, s: seq<Post>)
    requires NewestFirst(s)
    ensures NewestFirst(Insert(p, s))
  {
    if s == [] || s[0].createdAt <= p.createdAt {
      forall k | 0 <= k < |s| ensures s[k].createdAt <= p.createdAt {
        if k > 0 {
          assert s[0].createdAt >= s[k].createdAt;
        }
      }
      PrependKeepsOrder(p, s);
    } else {
      var rest := Insert(p, s[1..]);
      InsertKeepsOrder(p, s[1..]);
      forall k | 0 <= k < |rest| ensures rest[k].createdAt <= s[0].createdAt {
        var q := rest[k];
        assert q in multiset(rest);
        if q != p {
          assert q in multiset(s[1..]);
          var m :| 0 <= m < |s[1..]| && s[1..][m] == q;
          assert s[m + 1] == q;
        }
      }
      PrependKeepsOrder(s[0], rest);
    }
  }

  /** Insertion sort by creation time, newest first. */
  function SortNewestFirst(s: seq<Post>): (r: seq<Post>)
    ensures NewestFirst(r)
    ensures multiset(r) == multiset(s)
    ensures |r| == |s|
  {
    if s == [] then []
    else
      assert s == [s[0]] + s[1..];
      InsertKeepsOrder(s[0], SortNewestFirst(s[1..]));
      Insert(s[0], SortNewestFirst(s[1..]))
  }

  /** `LIMIT limit OFFSET offset` on an ordered result. */
  function Window(s: seq<Post>, offset: nat, limit: nat): (r: seq<Post>)
    ensures |r| == if offset >= |s| then 0 else if limit < |s| - offset then limit else |s| - offset
    ensures forall k | 0 <= k < |r| :: r[k] == s[offset + k]
  {
    var lo := if offset < |s| then offset else |s|;
    var hi := if offset + limit < |s| then offset + limit else |s|;
    s[lo..hi]
  }

  /** Two consecutive windows of one size make up the window of twice the size. */
  lemma ConsecutiveWindows(s: seq<Post>, offset: nat, limit: nat)
    ensures Window(s, offset, limit) + Window(s, offset + limit, limit) == Window(s, offset, 2 * limit)
  {
    var a := Window(s, offset, limit);
    var b := Window(s, offset + limit, limit);
    var c := Window(s, offset, 2 * limit);
    assert |a + b| == |c|;
    forall k | 0 <= k < |c| ensures (a + b)[k] == c[k] {
      if k >= |a| {
        assert (a + b)[k] == b[k - |a|];
      }
    }
  }

  /** A window of a newest-first sequence is newest first. */
  lemma WindowKeepsOrder(s: seq<Post>, offset: nat, limit: nat)
    requires NewestFirst(s)
    ensures NewestFirst(Window(s, offset, limit))
  {
    var r := Window(s, offset, limit);
    forall i, j | 0 <= i < j < |r| ensures r[i].createdAt >= r[j].createdAt {
      assert r[i] == s[offset + i] && r[j] == s[offset + j];
    }
  }

  /** A listing: the requested window and the count of all matching rows. */
  datatype Listing = Listing(posts: seq<Post>, total: int)

  /** The offset `(page - 1) * pageSize`, computed in Go's `int`. */
  function Offset(page: Int64, pageSize: Int64): (r: Int64)
    ensures MinInt64 <= (page - 1) * pageSize <= MaxInt64 ==> r == (page - 1) * pageSize
    ensures (r - (page - 1) * pageSize) % 0x1_0000_0000_0000_0000 == 0
  {
    var w := Wrap64(page - 1);
    var r := Wrap64(w * pageSize);
    CongruentProducts(w, page - 1, pageSize);
    CongruentSum(r, w * pageSize, (page - 1) * pageSize);
    r
  }

  /** Multiplying two numbers congruent modulo 2^64 by the same factor keeps them congruent. */
  lemma CongruentProducts(a: int, b: int, c: int)
    requires (a - b) % 0x1_0000_0000_0000_0000 == 0
    ensures (a * c - b * c) % 0x1_0000_0000_0000_0000 == 0
  {
    var k := (a - b) / 0x1_0000_0000_0000_0000;
    assert a - b == 0x1_0000_0000_0000_0000 * k;
    assert a * c - b * c == 0x1_0000_0000_0000_0000 * (k * c) by {
      assert a * c - b * c == (a - b) * c;
    }
  }

  /** Congruence modulo 2^64 is transitive. */
  lemma CongruentSum(a: int, b: int, c: int)
    requires (a - b) % 0x1_0000_0000_0000_0000 == 0 && (b - c) % 0x1_0000_0000_0000_0000 == 0
    ensures (a - c) % 0x1_0000_0000_0000_0000 == 0
  {
    var k := (a - b) / 0x1_0000_0000_0000_0000;
    var j := (b - c) / 0x1_0000_0000_0000_0000;
    assert a - c == 0x1_0000_0000_0000_0000 * (k + j);
  }

  /**
   * One listing query: the rows satisfying `c`, newest first, through
   * `LIMIT`/`OFFSET`; a negative offset or limit is refused by the database
   * (the offset is evaluated first). The refusal carries PostgreSQL's message
   * as lib/pq renders it, `pq: <message>`, after the repository's own prefix.
   */
  function List(rows: seq<Post>, c: Criterion, page: Int64, pageSize: Int64, what: string): (r: Result<Listing, RepoError>)
    ensures r.Ok? <==> Offset(page, pageSize) >= 0 && pageSize >= 0
    ensures r.Ok? ==>
      && r.value.total == |Where(rows, c)|
      && (forall p | p in r.value.posts :: p in rows && Matches(p, c))
      && NewestFirst(r.value.posts)
      && |r.value.posts| <= pageSize
      && r.value.posts == Window(SortNewestFirst(Where(rows, c)), Offset(page, pageSize), pageSize)
  {
    var offset := Offset(page, pageSize);
    if offset < 0 then Err(DbError("could not list " + what + ": pq: OFFSET must not be negative"))
    else if pageSize < 0 then Err(DbError("could not list " + what + ": pq: LIMIT must not be negative"))
    else
      var matching := Where(rows, c);
      var sorted := SortNewestFirst(matching);
      var window := Window(sorted, offset, pageSize);
      WindowKeepsOrder(sorted, offset, pageSize);
      assert forall p | p in window :: p in multiset(sorted);
      Ok(Listing(window, |matching|))
  }

  /** The first page, when it is large enough, holds every matching row. */
  lemma {:induction false} FirstPageHoldsAll(rows: seq<Post>, c: Criterion, pageSize: Int64, what: string)
    requires pageSize >= |Where(rows, c)|
    ensures List(rows, c, 1, pageSize, what).Ok?
    ensures multiset(List(rows, c, 1, pageSize, what).value.posts) == multiset(Where(rows, c))
  {
    assert Offset(1, pageSize) == 0;
    var sorted := SortNewestFirst(Where(rows, c));
    assert Window(sorted, 0, pageSize) == sorted;
  }

  /** The total does not depend on which page was asked for. */
  lemma TotalIgnoresPage(rows: seq<Post>, c: Criterion, p1: Int64, s1: Int64, p2: Int64, s2: Int64, what: string)
    requires List(rows, c, p1, s1, what).Ok? && List(rows, c, p2, s2, what).Ok?
    ensures List(rows, c, p1, s1, what).value.total == List(rows, c, p2, s2, what).value.total
  {
  }

  /** `UPDATE posts SET title, description, is_private, tags, updated_at = NOW() WHERE id = $5`, on every row. */
  function UpdateRows(rows: seq<Post>, post: Post, now: int): (r: seq<Post>)
    ensures |r| == |rows|
    ensures forall i | 0 <= i < |rows| :: rows[i].id != post.id ==> r[i] == rows[i]
    ensures forall i | 0 <= i < |rows| :: rows[i].id == post.id ==>
      && r[i].id == rows[i].id && r[i].userId == rows[i].userId && r[i].createdAt == rows[i].createdAt
      && r[i].title == post.title && r[i].description == post.description
      && r[i].isPrivate == post.isPrivate && r[i].tags == post.tags && r[i].updatedAt == now
  {
    seq(|rows|, i requires 0 <= i < |rows| =>
      if rows[i].id == post.id
      then rows[i].(title := post.title, description := post.description, isPrivate := post.isPrivate,
                    tags := post.tags, updatedAt := now)
      else rows[i])
  }

  class PostRepo {
    var rows: seq<Post>

    constructor()
      ensures rows == []
    {
      rows := [];
    }

    /** Inserts the post under the store's id, created and updated at `now`; returns the id. */
    method CreatePost(post: Post, id: string, now: int) returns (postID: string)
      modifies this
      ensures postID == id
      ensures rows == old(rows) + [post.(id := id, createdAt := now, updatedAt := now)]
    {
      rows := rows + [post.(id := id, createdAt := now, updatedAt := now)];
      postID := id;
    }

    function GetPostByID(postID: string): (r: Result<Post, RepoError>)
      reads this
      ensures r.Ok? <==> exists p | p in rows :: p.id == postID
      ensures r.Ok? ==> r.value in rows && r.value.id == postID
      ensures r.Err? ==> r.error == ErrPostNotFound
    {
      match FindByID(rows, postID)
      case None => Err(ErrPostNotFound)
      case Some(p) => Ok(p)
    }

    function GetPostAuthorID(postID: string): (r: Result<string, RepoError>)
      reads this
      ensures r.Ok? <==> GetPostByID(postID).Ok?
      ensures r.Ok? ==> r.value == GetPostByID(postID).value.userId
      ensures r.Err? ==> r.error == ErrPostNotFound
    {
      match FindByID(rows, postID)
      case None => Err(ErrPostNotFound)
      case Some(p) => Ok(p.userId)
    }

    /** No owner filter: any row with the id is updated; zero rows is ErrPostNotFound. */
    method UpdatePost(post: Post, now: int) returns (err: Option<RepoError>)
      modifies this
      ensures rows == UpdateRows(old(rows), post, now)
      ensures err.None? <==> exists p | p in old(rows) :: p.id == post.id
      ensures err.Some? ==> err.value == ErrPostNotFound && rows == old(rows)
    {
      if FindByID(rows, post.id).None? {
        assert UpdateRows(rows, post, now) == rows;
        return Some(ErrPostNotFound);
      }
      rows := UpdateRows(rows, post, now);
      err := None;
    }

    /**
     * Deletes the rows with both the id and the owner. When none matched, an
     * existence query tells a missing post from someone else's.
     */
    method DeletePost(postID: string, userID: string) returns (err: Option<RepoError>)
      modifies this
      ensures err.None? <==> exists p | p in old(rows) :: p.id == postID && p.userId == userID
      ensures err.None? ==> rows == Where(old(rows), NotOwned(postID, userID))
      ensures err.Some? ==> rows == old(rows)
      ensures err == Some(ErrPostNotFound) <==> forall p | p in old(rows) :: p.id != postID
      ensures err == Some(ErrForbidden) <==>
        (exists p | p in old(rows) :: p.id == postID) && forall p | p in old(rows) :: !(p.id == postID && p.userId == userID)
    {
      var remaining := Where(rows, NotOwned(postID, userID));
      if |remaining| == |rows| {
        WhereOfAll(rows, NotOwned(postID, userID));
        if FindByID(rows, postID).None? {
          return Some(ErrPostNotFound);
        }
        return Some(ErrForbidden);
      }
      rows := remaining;
      err := None;
    }

    /** The user's posts, newest first, one page of them, and how many there are in all. */
    function ListUserPosts(userID: string, page: Int64, pageSize: Int64): (r: Result<Listing, RepoError>)
      reads this
      ensures r == List(rows, ByUser(userID), page, pageSize, "user posts")
      ensures r.Ok? ==> forall p | p in r.value.posts :: p in rows && p.userId == userID
    {
      List(rows, ByUser(userID), page, pageSize, "user posts")
    }

    /** The public posts, newest first, one page of them, and how many there are in all. */
    function ListPublicPosts(page: Int64, pageSize: Int64): (r: Result<Listing, RepoError>)
      reads this
      ensures r == List(rows, Public, page, pageSize, "public posts")
      ensures r.Ok? ==> forall p | p in r.value.posts :: p in rows && !p.isPrivate
    {
      List(rows, Public, page, pageSize, "public posts")
    }
  }
}
