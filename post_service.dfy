/**
 * `PostService`: creating posts, listing them newest-first, owner-scoped lookup, the
 * like toggle, and deletion that cascades to the post's image record and its blob.
 */
module PostServices {

  import opened Failures
  import opened Entities
  import opened Seqs
  import opened Repositories
  import Text

  /** The post invariant: the like counter is the number of users who liked the post. */
  predicate LikesConsistent(p: Post)
  {
    p.likes == |p.likedUsers|
  }

  predicate AllLikesConsistent(ps: seq<Post>)
  {
    forall i :: 0 <= i < |ps| ==> LikesConsistent(ps[i])
  }

  /** Deleting posts keeps the like invariant of the remaining ones. */
  lemma FilterKeepsLikesConsistent(ps: seq<Post>, keep: Post -> bool)
    requires AllLikesConsistent(ps)
    ensures AllLikesConsistent(Filter(ps, keep))
  {
    var r := Filter(ps, keep);
    forall i | 0 <= i < |r| ensures LikesConsistent(r[i]) {
      var k :| 0 <= k < |ps| && ps[k] == r[i];
    }
  }

  /** What `likePost` does to one post: a user who already liked it unlikes it,
      anyone else likes it; the counter moves with the set. */
  function ToggleLike(p: Post, username: string): (q: Post)
    ensures username in q.likedUsers <==> username !in p.likedUsers
    ensures forall v :: v != username ==> (v in q.likedUsers <==> v in p.likedUsers)
    ensures q.likes == (if username in p.likedUsers then p.likes - 1 else p.likes + 1)
    ensures q.(likes := p.likes, likedUsers := p.likedUsers) == p
  {
    if username in p.likedUsers then
      p.(likes := p.likes - 1, likedUsers := p.likedUsers - {username})
    else
      p.(likes := p.likes + 1, likedUsers := p.likedUsers + {username})
  }

  /** The toggle keeps the counter equal to the number of likers. */
  lemma ToggleLikeKeepsConsistent(p: Post, username: string)
    requires LikesConsistent(p)
    ensures LikesConsistent(ToggleLike(p, username))
  {
    if username in p.likedUsers {
      assert |p.likedUsers - {username}| == |p.likedUsers| - 1;
    }
  }

  /** Liking and unliking (or the reverse) with the same user restores the post. */
  lemma ToggleLikeTwice(p: Post, username: string)
    ensures ToggleLike(ToggleLike(p, username), username) == p
  {
    var q := ToggleLike(ToggleLike(p, username), username);
    assert q.likedUsers == p.likedUsers;
  }

  /** Posts in descending creation time, as `ORDER BY createdAt DESC` lists them. */
  predicate NewestFirst(ps: seq<Post>)
  {
    forall i, j :: 0 <= i < j < |ps| ==> ps[i].createdAt > ps[j].createdAt
  }

  /** `findAllBy...OrderByCreatedAtDesc` over a table whose rows were appended in
      creation order: the same posts, newest first. */
  function OrderByCreatedAtDesc(ps: seq<Post>): (r: seq<Post>)
    ensures multiset(r) == multiset(ps)
    ensures IncreasingBy(ps, (p: Post) => p.createdAt) ==> NewestFirst(r)
  {
    ReversePermutes(ps);
    ReverseDecreasing(ps, (p: Post) => p.createdAt);
    Reverse(ps)
  }

  /** The posts owned by the user with id `userId`, in storage order. */
  function PostsOf(ps: seq<Post>, userId: nat): seq<Post>
  {
    Filter(ps, (p: Post) => p.user.id == userId)
  }

  /** A user's newest-first listing is the global newest-first listing restricted to
      that user's posts. */
  lemma PostsOfNewestFirst(ps: seq<Post>, userId: nat)
    ensures OrderByCreatedAtDesc(PostsOf(ps, userId)) == PostsOf(OrderByCreatedAtDesc(ps), userId)
  {
    ReverseFilter(ps, (p: Post) => p.user.id == userId);
  }

  /** Some post in `ps` has id `postId` and belongs to the user with id `userId`. */
  predicate OwnsPost(ps: seq<Post>, postId: nat, userId: nat)
  {
    exists i :: 0 <= i < |ps| && ps[i].id == postId && ps[i].user.id == userId
  }

  /** `getUserByPrincipal`, which every principal-based operation starts with. */
  function GetUserByPrincipal(users: UserRepository, principal: string): (r: Result<User>)
    reads users
    ensures r.Ok? <==> exists i :: 0 <= i < |users.users| && users.users[i].username == principal
    ensures r.Ok? ==> r.value in users.users && r.value.username == principal
    ensures r.Err? ==> r.error == Failure(UsernameNotFoundException, Some("Username not found"))
  {
    match users.FindUserByUsername(principal)
    case Some(u) => Ok(u)
    case None => Err(Failure(UsernameNotFoundException, Some("Username not found")))
  }

  class PostService {
    const postRepository: PostRepository
    const userRepository: UserRepository
    const imageRepository: ImageRepository
    const s3: BlobStore

    ghost predicate Valid()
      reads postRepository, userRepository, imageRepository
    {
      && postRepository.Valid()
      && userRepository.Valid()
      && imageRepository.Valid()
      && AllLikesConsistent(postRepository.posts)
    }

    constructor (posts: PostRepository, users: UserRepository, images: ImageRepository, blobs: BlobStore)
      requires posts.Valid() && users.Valid() && images.Valid()
      requires AllLikesConsistent(posts.posts)
      ensures postRepository == posts && userRepository == users
      ensures imageRepository == images && s3 == blobs
      ensures Valid()
    {
      postRepository, userRepository, imageRepository, s3 := posts, users, images, blobs;
    }

    /** `createPost`: a new post of the principal's user with no likes. */
    method CreatePost(postDTO: PostDTO, principal: string) returns (r: Result<Post>)
      requires Valid()
      modifies postRepository
      ensures Valid()
      ensures r.Err? <==> GetUserByPrincipal(userRepository, principal).Err?
      ensures r.Err? ==> r.error == GetUserByPrincipal(userRepository, principal).error
      ensures r.Err? ==> postRepository.posts == old(postRepository.posts)
      ensures r.Ok? ==>
        var user := GetUserByPrincipal(userRepository, principal).value;
        && r.value.title == postDTO.title
        && r.value.caption == postDTO.caption
        && r.value.location == postDTO.location
        && r.value.likes == 0 && r.value.likedUsers == {}
        && r.value.user == UserRef(user.id, user.username)
        && r.value.id == old(postRepository.nextId)
        && postRepository.posts == old(postRepository.posts) + [r.value]
    {
      var found := GetUserByPrincipal(userRepository, principal);
      if found.Err? {
        return Err(found.error);
      }
      var user := found.value;
      var post := Post(0, postDTO.title, postDTO.caption, postDTO.location, 0, {}, UserRef(user.id, user.username), 0);
      var saved := postRepository.Insert(post);
      return Ok(saved);
    }

    /** `getAllPosts`: every post, newest first. */
    function GetAllPosts(): (r: seq<Post>)
      reads postRepository
      requires postRepository.Valid()
      ensures multiset(r) == multiset(postRepository.posts)
      ensures NewestFirst(r)
    {
      OrderByCreatedAtDesc(postRepository.posts)
    }

    /** `getPostById`: the post with that id, provided the principal's user owns it. */
    function GetPostById(postId: nat, principal: string): (r: Result<Post>)
      reads userRepository, postRepository
      ensures GetUserByPrincipal(userRepository, principal).Err? ==>
        r == Err(GetUserByPrincipal(userRepository, principal).error)
      ensures GetUserByPrincipal(userRepository, principal).Ok? ==>
        var user := GetUserByPrincipal(userRepository, principal).value;
        && (r.Ok? <==> OwnsPost(postRepository.posts, postId, user.id))
        && (r.Ok? ==> r.value in postRepository.posts && r.value.id == postId && r.value.user.id == user.id)
        && (r.Err? ==> r.error == Failure(PostNotFoundException, Some("Post cannot be found for username: " + user.email)))
    {
      match GetUserByPrincipal(userRepository, principal)
      case Err(e) => Err(e)
      case Ok(user) =>
        match First(postRepository.posts, (p: Post) => p.id == postId && p.user.id == user.id)
        case Some(p) => Ok(p)
        case None => Err(Failure(PostNotFoundException, Some("Post cannot be found for username: " + user.email)))
    }

    /** `getAllPostForUser`: the principal's posts, newest first. */
    function GetAllPostForUser(principal: string): (r: Result<seq<Post>>)
      reads userRepository, postRepository
      requires postRepository.Valid()
      ensures r.Err? <==> GetUserByPrincipal(userRepository, principal).Err?
      ensures r.Err? ==> r.error == GetUserByPrincipal(userRepository, principal).error
      ensures r.Ok? ==>
        var user := GetUserByPrincipal(userRepository, principal).value;
        && NewestFirst(r.value)
        && multiset(r.value) == multiset(PostsOf(postRepository.posts, user.id))
        && r.value == PostsOf(GetAllPosts(), user.id)
    {
      match GetUserByPrincipal(userRepository, principal)
      case Err(e) => Err(e)
      case Ok(user) =>
        FilterKeepsIncreasing(postRepository.posts, (p: Post) => p.user.id == user.id, (p: Post) => p.createdAt);
        PostsOfNewestFirst(postRepository.posts, user.id);
        Ok(OrderByCreatedAtDesc(PostsOf(postRepository.posts, user.id)))
    }

    /** `likePost`: toggles `username`'s like on the post with that id; only that post
        changes. */
    method LikePost(postId: nat, username: string) returns (r: Result<Post>)
      requires Valid()
      modifies postRepository
      ensures Valid()
      ensures r.Err? <==> old(postRepository.FindById(postId)).None?
      ensures r.Err? ==> r.error == Failure(PostNotFoundException, Some("Post cannot be found"))
      ensures r.Err? ==> postRepository.posts == old(postRepository.posts)
      ensures r.Ok? ==> r.value == ToggleLike(old(postRepository.FindById(postId)).value, username)
      ensures r.Ok? ==> |postRepository.posts| == |old(postRepository.posts)|
      ensures r.Ok? ==> forall i :: 0 <= i < |postRepository.posts| ==>
        postRepository.posts[i] == if old(postRepository.posts[i]).id == postId then r.value else old(postRepository.posts[i])
    {
      var found := postRepository.FindById(postId);
      if found.None? {
        return Err(Failure(PostNotFoundException, Some("Post cannot be found")));
      }
      var post := ToggleLike(found.value, username);
      ToggleLikeKeepsConsistent(found.value, username);
      postRepository.Update(post);
      return Ok(post);
    }

    /** `deletePost`: removes the principal's post and, when the post has an image
        record, that record and the blob at its key. Fails before changing anything. */
    method DeletePost(postId: nat, principal: string) returns (r: Result<Unit>)
      requires Valid()
      modifies postRepository, imageRepository, s3
      ensures Valid()
      ensures r.Ok? <==>
        old(GetPostById(postId, principal)).Ok? && |ImagesOfPost(old(imageRepository.images), postId)| <= 1
      ensures old(GetPostById(postId, principal)).Err? ==> r == Err(old(GetPostById(postId, principal)).error)
      ensures old(GetPostById(postId, principal)).Ok? && |ImagesOfPost(old(imageRepository.images), postId)| > 1 ==>
        r.Err? && r.error.cls == IncorrectResultSizeDataAccessException
      ensures r.Err? ==> postRepository.posts == old(postRepository.posts)
      ensures r.Err? ==> imageRepository.images == old(imageRepository.images) && s3.objects == old(s3.objects)
      ensures r.Ok? ==> postRepository.posts == Filter(old(postRepository.posts), (q: Post) => q.id != postId)
      ensures r.Ok? && ImagesOfPost(old(imageRepository.images), postId) == [] ==>
        imageRepository.images == old(imageRepository.images) && s3.objects == old(s3.objects)
      ensures r.Ok? && |ImagesOfPost(old(imageRepository.images), postId)| == 1 ==>
        var image := ImagesOfPost(old(imageRepository.images), postId)[0];
        && imageRepository.images == Filter(old(imageRepository.images), (m: ImageModel) => m.id != image.id)
        && s3.objects == old(s3.objects) - {image.s3Key}
      ensures r.Ok? ==> ImagesOfPost(imageRepository.images, postId) == []
    {
      var post := GetPostById(postId, principal);
      if post.Err? {
        return Err(post.error);
      }
      assert post.value.id == postId;
      var imageModel := SingleResult(ImagesOfPost(imageRepository.images, post.value.id));
      if imageModel.Err? {
        return Err(imageModel.error);
      }
      RemovePostRecords(postId, imageModel.value);
      return Ok(Unit);
    }

    /** The deleting half of `deletePost`, once the post and its at most one image
        record are known. */
    method RemovePostRecords(postId: nat, image: Option<ImageModel>)
      requires Valid()
      requires image.None? ==> ImagesOfPost(imageRepository.images, postId) == []
      requires image.Some? ==> ImagesOfPost(imageRepository.images, postId) == [image.value]
      modifies postRepository, imageRepository, s3
      ensures Valid()
      ensures postRepository.posts == Filter(old(postRepository.posts), (q: Post) => q.id != postId)
      ensures image.None? ==> imageRepository.images == old(imageRepository.images) && s3.objects == old(s3.objects)
      ensures image.Some? ==>
        && imageRepository.images == Filter(old(imageRepository.images), (m: ImageModel) => m.id != image.value.id)
        && s3.objects == old(s3.objects) - {image.value.s3Key}
      ensures ImagesOfPost(imageRepository.images, postId) == []
    {
      FilterKeepsLikesConsistent(postRepository.posts, (q: Post) => q.id != postId);
      postRepository.Delete(postId);
      if image.Some? {
        RemoveImageRecord(postId, image.value);
      }
    }

    /** Removes a post's only image record and the blob at its key. */
    method RemoveImageRecord(postId: nat, image: ImageModel)
      requires imageRepository.Valid()
      requires ImagesOfPost(imageRepository.images, postId) == [image]
      modifies imageRepository, s3
      ensures imageRepository.Valid()
      ensures imageRepository.images == Filter(old(imageRepository.images), (m: ImageModel) => m.id != image.id)
      ensures s3.objects == old(s3.objects) - {image.s3Key}
      ensures ImagesOfPost(imageRepository.images, postId) == []
    {
      NoImageLeft(imageRepository.images, postId, image);
      imageRepository.Delete(image.id);
      s3.DeleteObject(image.s3Key);
    }
  }

  /** Deleting the only image record of a post leaves that post with no image. */
  lemma NoImageLeft(images: seq<ImageModel>, postId: nat, image: ImageModel)
    requires ImagesOfPost(images, postId) == [image]
    ensures ImagesOfPost(Filter(images, (m: ImageModel) => m.id != image.id), postId) == []
  {
    var rest := Filter(images, (m: ImageModel) => m.id != image.id);
    forall i | 0 <= i < |rest| ensures rest[i].postId != Some(postId) {
      var k :| 0 <= k < |images| && images[k] == rest[i];
    }
    FilterNone(rest, (m: ImageModel) => m.postId == Some(postId));
  }
}
