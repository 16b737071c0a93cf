/**
 The in-memory post store: a list of posts kept by the service, and the five
 operations on it (list all, look up by id, create, update, delete).

 The store is a value: every operation takes the current list and, when it
 succeeds, returns the new list together with its result. An operation that
 fails returns only the error; the caller's list stays as it was, because the
 service raises before it reassigns its list.
 */
module PostsService {
  import opened Wrappers

  /** One post record. Ids are plain integers. */
  datatype Post = Post(
    id: int,
    author: string,
    title: string,
    content: string,
    likeCount: int,
    commentCount: int
  )

  type Store = seq<Post>

  datatype ServiceError =
    /** No post has the requested id. */
    | NotFound
    /** Creating a post in an empty store reads the id of a missing last post. */
    | NoLastPost

  /** The three posts the service starts with. */
  const Seed: Store := [
    Post(1, "newjeans_official", "뉴진스 민지", "메이크업 고치고 있는 민지", 1000000, 99999),
    Post(2, "newjeans_official", "뉴진스 혜린", "노래 연습하고 있는 혜린", 1000000, 99999),
    Post(3, "blackpink_official", "블랙핑크 로제", " 종합운동장에서 공연중인 로제", 1000000, 99999)
  ]

  /** Ids strictly increase along the list (and so are pairwise distinct). */
  ghost predicate StrictlyIncreasing(s: Store)
  {
    forall i, j :: 0 <= i < j < |s| ==> s[i].id < s[j].id
  }

  /** Some post in the list has id `k`. */
  predicate HasId(s: Store, k: int)
  {
    exists i :: 0 <= i < |s| && s[i].id == k
  }

  /** The number of posts in the list whose id is `k`. */
  function CountId(s: Store, k: int): nat
  {
    if |s| == 0 then 0
    else (if s[0].id == k then 1 else 0) + CountId(s[1..], k)
  }

  /** `a` is obtained from `b` by dropping some elements, keeping the order. */
  ghost predicate IsSubsequence(a: Store, b: Store)
    decreases |b|
  {
    if |a| == 0 then true
    else if |b| == 0 then false
    else if a[0] == b[0] then IsSubsequence(a[1..], b[1..])
    else IsSubsequence(a, b[1..])
  }

  /** The index of the first post with id `k`, as the list's `find` sees it. */
  function FindIndex(s: Store, k: int): (r: Option<nat>)
    ensures r.Some? ==> r.value < |s| && s[r.value].id == k
    ensures r.Some? ==> forall j :: 0 <= j < r.value ==> s[j].id != k
    ensures r.None? <==> !HasId(s, k)
  {
    if |s| == 0 then None
    else if s[0].id == k then Some(0)
    else
      match FindIndex(s[1..], k)
      case None =>
        assert forall i :: 1 <= i < |s| ==> s[i] == s[1..][i - 1];
        None
      case Some(i) => Some(i + 1)
  }

  /** JavaScript truthiness of an optional string argument: present and non-empty. */
  predicate Truthy(arg: Option<string>)
  {
    arg.Some? && |arg.value| > 0
  }

  /** The field value after an update: the argument when truthy, else the old value. */
  function Overwrite(current: string, arg: Option<string>): string
  {
    if Truthy(arg) then arg.value else current
  }

  /** The post after `updatePost` has assigned its truthy arguments. */
  function Patch(p: Post, author: Option<string>, title: Option<string>, content: Option<string>): Post
  {
    p.(author := Overwrite(p.author, author),
       title := Overwrite(p.title, title),
       content := Overwrite(p.content, content))
  }

  /** The list with every post of id `k` replaced by `p`, as the update's `map` does. */
  function ReplaceId(s: Store, k: int, p: Post): (r: Store)
  {
    seq(|s|, i requires 0 <= i < |s| => if s[i].id == k then p else s[i])
  }

  /** The list with every post of id `k` dropped, as the delete's `filter` does. */
  function RemoveId(s: Store, k: int): (r: Store)
    ensures forall i :: 0 <= i < |r| ==> r[i].id != k
    ensures |r| == |s| - CountId(s, k)
    ensures IsSubsequence(r, s)
  {
    if |s| == 0 then []
    else if s[0].id == k then RemoveId(s[1..], k)
    else [s[0]] + RemoveId(s[1..], k)
  }

  // ---------------------------------------------------------------------------
  // The five operations
  // ---------------------------------------------------------------------------

  /** getAllPosts: the whole list, with the store left as it is. */
  function GetAllPosts(s: Store): (r: (Store, Store))
  {
    (s, s)
  }

  /** getPostById: the first post with id `k`, or NotFound. */
  function GetPostById(s: Store, k: int): (r: Result<(Store, Post), ServiceError>)
    ensures r.Ok? <==> HasId(s, k)
    ensures r.Err? ==> r.error == NotFound
    ensures r.Ok? ==> r.value.0 == s && r.value.1 in s && r.value.1.id == k
    ensures r.Ok? ==> r.value.1 == s[FindIndex(s, k).value]
  {
    match FindIndex(s, k)
    case None => Err(NotFound)
    case Some(i) => Ok((s, s[i]))
  }

  /** createPost: append a post whose id is one more than the last post's id. */
  function CreatePost(s: Store, author: string, title: string, content: string): (r: Result<(Store, Post), ServiceError>)
    ensures r.Ok? <==> |s| > 0
    ensures r.Err? ==> r.error == NoLastPost
    ensures r.Ok? ==>
      var (t, p) := r.value;
      && t == s + [p]
      && p.id == s[|s| - 1].id + 1
      && p.author == author && p.title == title && p.content == content
      && p.likeCount == 0 && p.commentCount == 0
    ensures r.Ok? && StrictlyIncreasing(s) ==>
      StrictlyIncreasing(r.value.0) && !HasId(s, r.value.1.id)
  {
    if |s| == 0 then Err(NoLastPost)
    else
      var p := Post(s[|s| - 1].id + 1, author, title, content, 0, 0);
      Ok((s + [p], p))
  }

  /** updatePost: overwrite the truthy fields of the post with id `k`. */
  function UpdatePost(s: Store, k: int, author: Option<string>, title: Option<string>, content: Option<string>)
    : (r: Result<(Store, Post), ServiceError>)
    ensures r.Ok? <==> HasId(s, k)
    ensures r.Err? ==> r.error == NotFound
    ensures r.Ok? ==>
      var (t, p) := r.value;
      var before := s[FindIndex(s, k).value];
      && p.id == k && p.likeCount == before.likeCount && p.commentCount == before.commentCount
      && p.author == (if Truthy(author) then author.value else before.author)
      && p.title == (if Truthy(title) then title.value else before.title)
      && p.content == (if Truthy(content) then content.value else before.content)
      && |t| == |s|
      && (forall i :: 0 <= i < |s| ==> t[i].id == s[i].id)
      && (forall i :: 0 <= i < |s| && s[i].id != k ==> t[i] == s[i])
      && (forall i :: 0 <= i < |s| && s[i].id == k ==> t[i] == p)
    ensures r.Ok? && StrictlyIncreasing(s) ==> StrictlyIncreasing(r.value.0)
  {
    match FindIndex(s, k)
    case None => Err(NotFound)
    case Some(i) =>
      var p := Patch(s[i], author, title, content);
      Ok((ReplaceId(s, k, p), p))
  }

  /** deletePost: drop the posts with id `k` and return `k`, or NotFound. */
  function DeletePost(s: Store, k: int): (r: Result<(Store, int), ServiceError>)
    ensures r.Ok? <==> HasId(s, k)
    ensures r.Err? ==> r.error == NotFound
    ensures r.Ok? ==>
      var (t, deleted) := r.value;
      && deleted == k
      && !HasId(t, k)
      && |t| == |s| - CountId(s, k)
      && IsSubsequence(t, s)
  {
    match FindIndex(s, k)
    case None => Err(NotFound)
    case Some(_) => Ok((RemoveId(s, k), k))
  }
}
