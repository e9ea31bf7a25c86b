/**
 * `ImageUploadService`: at most one profile image per user (the record with that user
 * and no post), any number of images per post, blob keys built from the user's or the post's id
 * and the file name, and reads that attach the stored bytes to the record.
 */
module ImageServices {

  import opened Failures
  import opened Entities
  import opened Seqs
  import opened Repositories
  import opened PostServices
  import Text

  /** The blob key of a user's profile image. */
  function ProfileKey(userId: nat, filename: string): string
  {
    "profile-images/" + Text.NatToString(userId) + "/" + filename
  }

  /** The blob key of an image attached to a post. */
  function PostKey(postId: nat, filename: string): string
  {
    "post-images/" + Text.NatToString(postId) + "/" + filename
  }

  /** Distinct (user, file name) pairs get distinct profile keys. */
  lemma ProfileKeyInjective(u1: nat, f1: string, u2: nat, f2: string)
    requires ProfileKey(u1, f1) == ProfileKey(u2, f2)
    ensures u1 == u2 && f1 == f2
  {
    var prefix := "profile-images/";
    var k1, k2 := ProfileKey(u1, f1), ProfileKey(u2, f2);
    assert k1[|prefix|..] == Text.NatToString(u1) + ['/'] + f1;
    assert k2[|prefix|..] == Text.NatToString(u2) + ['/'] + f2;
    Text.SplitAtSeparator(Text.NatToString(u1), f1, Text.NatToString(u2), f2, '/');
    Text.NatToStringInjective(u1, u2);
  }

  /** Distinct (post, file name) pairs get distinct post keys. */
  lemma PostKeyInjective(p1: nat, f1: string, p2: nat, f2: string)
    requires PostKey(p1, f1) == PostKey(p2, f2)
    ensures p1 == p2 && f1 == f2
  {
    var prefix := "post-images/";
    var k1, k2 := PostKey(p1, f1), PostKey(p2, f2);
    assert k1[|prefix|..] == Text.NatToString(p1) + ['/'] + f1;
    assert k2[|prefix|..] == Text.NatToString(p2) + ['/'] + f2;
    Text.SplitAtSeparator(Text.NatToString(p1), f1, Text.NatToString(p2), f2, '/');
    Text.NatToStringInjective(p1, p2);
  }

  /** A profile key never names a post image's blob, and vice versa. */
  lemma ProfileAndPostKeysDiffer(userId: nat, f1: string, postId: nat, f2: string)
    ensures ProfileKey(userId, f1) != PostKey(postId, f2)
  {
    assert ProfileKey(userId, f1)[1] == 'r' && PostKey(postId, f2)[1] == 'o';
  }

  /** `toSinglePostCollector`: the only element, or `IllegalStateException` (no message)
      when there are none or several. */
  function ToSingle<T>(xs: seq<T>): (r: Result<T>)
    ensures r.Ok? <==> |xs| == 1
    ensures r.Ok? ==> r.value == xs[0]
    ensures r.Err? ==> r.error == Failure(IllegalStateException, None)
  {
    if |xs| != 1 then Err(Failure(IllegalStateException, None)) else Ok(xs[0])
  }

  /** The user's posts with id `postId`, as `uploadImageToPost` filters `user.getPosts()`. */
  function OwnedPostsWithId(posts: seq<Post>, userId: nat, postId: nat): seq<Post>
  {
    Filter(PostsOf(posts, userId), (p: Post) => p.id == postId)
  }

  /** Post ids are unique, so a user owns at most one post with a given id, and owns one
      exactly when some stored post has that id and owner. */
  lemma OwnedPostsWithIdAtMostOne(posts: seq<Post>, userId: nat, postId: nat)
    requires IncreasingBy(posts, (p: Post) => p.id)
    ensures |OwnedPostsWithId(posts, userId, postId)| <= 1
    ensures |OwnedPostsWithId(posts, userId, postId)| == 1 <==> OwnsPost(posts, postId, userId)
    ensures |OwnedPostsWithId(posts, userId, postId)| == 1 ==>
      var p := OwnedPostsWithId(posts, userId, postId)[0];
      p in posts && p.id == postId && p.user.id == userId
  {
    FilterKeepsIncreasing(posts, (p: Post) => p.user.id == userId, (p: Post) => p.id);
    AtMostOneWithId(PostsOf(posts, userId), postId);
    if |OwnedPostsWithId(posts, userId, postId)| == 1 {
      OwnedPostIsStored(posts, userId, postId);
    }
    if OwnsPost(posts, postId, userId) {
      OwnedPostIsFound(posts, userId, postId);
    }
  }

  /** A stored post with that id and owner is among the owned posts with that id. */
  lemma OwnedPostIsFound(posts: seq<Post>, userId: nat, postId: nat)
    requires OwnsPost(posts, postId, userId)
    ensures |OwnedPostsWithId(posts, userId, postId)| > 0
  {
    var mine := PostsOf(posts, userId);
    var i :| 0 <= i < |posts| && posts[i].id == postId && posts[i].user.id == userId;
    assert posts[i] in mine;
    var k :| 0 <= k < |mine| && mine[k] == posts[i];
    assert mine[k] in OwnedPostsWithId(posts, userId, postId);
  }

  /** In a table with increasing ids at most one row has a given id. */
  lemma AtMostOneWithId(ps: seq<Post>, postId: nat)
    requires IncreasingBy(ps, (p: Post) => p.id)
    ensures |Filter(ps, (p: Post) => p.id == postId)| <= 1
  {
    forall i, j | 0 <= i < j < |ps| ensures ps[i].id != ps[j].id {
    }
    FilterAtMostOne(ps, (p: Post) => p.id == postId);
  }

  /** A post the user owns with that id is a stored post with that id and owner. */
  lemma OwnedPostIsStored(posts: seq<Post>, userId: nat, postId: nat)
    requires |OwnedPostsWithId(posts, userId, postId)| > 0
    ensures var p := OwnedPostsWithId(posts, userId, postId)[0];
      p in posts && p.id == postId && p.user.id == userId
    ensures OwnsPost(posts, postId, userId)
  {
    var p := OwnedPostsWithId(posts, userId, postId)[0];
    assert p in PostsOf(posts, userId);
    var i :| 0 <= i < |posts| && posts[i] == p;
  }

  /** Removing a user's profile images leaves that user with none and touches neither
      any post's images nor another user's profile images. */
  lemma RemovingProfileImages(images: seq<ImageModel>, userId: nat)
    ensures ProfileImagesOf(Filter(images, (x: ImageModel) => !IsProfileImageOf(x, userId)), userId) == []
    ensures forall postId: nat ::
      ImagesOfPost(Filter(images, (x: ImageModel) => !IsProfileImageOf(x, userId)), postId) == ImagesOfPost(images, postId)
    ensures forall u: nat :: u != userId ==>
      ProfileImagesOf(Filter(images, (x: ImageModel) => !IsProfileImageOf(x, userId)), u) == ProfileImagesOf(images, u)
  {
    var keep := (x: ImageModel) => !IsProfileImageOf(x, userId);
    var rest := Filter(images, keep);
    FilterNone(rest, (x: ImageModel) => IsProfileImageOf(x, userId));
    forall postId: nat
      ensures ImagesOfPost(rest, postId) == ImagesOfPost(images, postId)
    {
      FilterSubsumed(images, keep, (x: ImageModel) => x.postId == Some(postId));
    }
    forall u: nat | u != userId
      ensures ProfileImagesOf(rest, u) == ProfileImagesOf(images, u)
    {
      FilterSubsumed(images, keep, (x: ImageModel) => IsProfileImageOf(x, u));
    }
  }

  /** Record ids are unique, so deleting the user's only profile image by its id removes
      exactly the user's profile images. */
  lemma DeleteByIdRemovesProfileImages(images: seq<ImageModel>, userId: nat, m: ImageModel)
    requires IncreasingBy(images, (x: ImageModel) => x.id)
    requires ProfileImagesOf(images, userId) == [m]
    ensures Filter(images, (x: ImageModel) => x.id != m.id) == Filter(images, (x: ImageModel) => !IsProfileImageOf(x, userId))
    ensures KeysOf(ProfileImagesOf(images, userId)) == {m.s3Key}
  {
    assert ProfileImagesOf(images, userId)[0] == m;
    var k :| 0 <= k < |images| && images[k] == m;
    FilterExt(images, (x: ImageModel) => x.id != m.id, (x: ImageModel) => !IsProfileImageOf(x, userId));
    assert [m][1..] == [];
  }

  /** Appending a record that is not the user's profile image keeps the user's profile
      images; appending one that is adds it last. */
  lemma ProfileImagesOfAppend(images: seq<ImageModel>, m: ImageModel, userId: nat)
    ensures ProfileImagesOf(images + [m], userId) ==
      ProfileImagesOf(images, userId) + (if IsProfileImageOf(m, userId) then [m] else [])
  {
    FilterAppend(images, m, (x: ImageModel) => IsProfileImageOf(x, userId));
  }

  /** Appending a record keeps the earlier images of every post and adds it to its own. */
  lemma ImagesOfPostAppend(images: seq<ImageModel>, m: ImageModel, postId: nat)
    ensures ImagesOfPost(images + [m], postId) ==
      ImagesOfPost(images, postId) + (if m.postId == Some(postId) then [m] else [])
  {
    FilterAppend(images, m, (x: ImageModel) => x.postId == Some(postId));
  }

  class ImageUploadService {
    const imageRepository: ImageRepository
    const userRepository: UserRepository
    const postRepository: PostRepository
    const s3: BlobStore

    ghost predicate Valid()
      reads imageRepository, userRepository, postRepository
    {
      imageRepository.Valid() && userRepository.Valid() && postRepository.Valid()
    }

    constructor (images: ImageRepository, users: UserRepository, posts: PostRepository, blobs: BlobStore)
      requires images.Valid() && users.Valid() && posts.Valid()
      ensures imageRepository == images && userRepository == users
      ensures postRepository == posts && s3 == blobs
      ensures Valid()
    {
      imageRepository, userRepository, postRepository, s3 := images, users, posts, blobs;
    }

    /** A single-row image query followed by `getObject` and `setImageBytes`: the one
        record found, carrying the bytes stored at its key. */
    function WithBytes(rows: seq<ImageModel>, missing: Failure): (r: Result<ImageModel>)
      reads s3
      ensures |rows| == 0 ==> r == Err(missing)
      ensures |rows| > 1 ==> r.Err? && r.error.cls == IncorrectResultSizeDataAccessException
      ensures |rows| == 1 ==> (r.Ok? <==> rows[0].s3Key in s3.objects)
      ensures |rows| == 1 && r.Err? ==> r.error.cls == NoSuchKeyException
      ensures r.Ok? ==> |rows| == 1 && rows[0].s3Key in s3.objects && r.value == rows[0].(imageBytes := Some(s3.objects[rows[0].s3Key]))
    {
      match SingleResult(rows)
      case Err(e) => Err(e)
      case Ok(None) => Err(missing)
      case Ok(Some(m)) =>
        match s3.GetObject(m.s3Key)
        case Err(e) => Err(e)
        case Ok(bytes) => Ok(m.(imageBytes := Some(bytes)))
    }

    /** The `findByUserIdAndPostId(user, null).ifPresent(...)` step shared by
        `uploadImageToUser` and `deleteProfileImage`: the user's profile image record
        and its blob are removed when there is one. */
    method RemoveProfileImage(userId: nat) returns (r: Result<Unit>)
      requires imageRepository.Valid()
      modifies imageRepository, s3
      ensures imageRepository.Valid() && imageRepository.nextId == old(imageRepository.nextId)
      ensures r.Ok? <==> |ProfileImagesOf(old(imageRepository.images), userId)| <= 1
      ensures ProfileImagesOf(old(imageRepository.images), userId) == [] ==>
        imageRepository.images == old(imageRepository.images) && s3.objects == old(s3.objects)
      ensures r.Err? ==> r.error.cls == IncorrectResultSizeDataAccessException
      ensures r.Err? ==> imageRepository.images == old(imageRepository.images) && s3.objects == old(s3.objects)
      ensures r.Ok? ==>
        && imageRepository.images == Filter(old(imageRepository.images), (x: ImageModel) => !IsProfileImageOf(x, userId))
        && s3.objects == old(s3.objects) - KeysOf(ProfileImagesOf(old(imageRepository.images), userId))
    {
      var existing := SingleResult(ProfileImagesOf(imageRepository.images, userId));
      if existing.Err? {
        return Err(existing.error);
      }
      if existing.value.Some? {
        var m := existing.value.value;
        DeleteByIdRemovesProfileImages(imageRepository.images, userId, m);
        s3.DeleteObject(m.s3Key);
        imageRepository.Delete(m.id);
      } else {
        FilterAll(imageRepository.images, (x: ImageModel) => !IsProfileImageOf(x, userId));
      }
      return Ok(Unit);
    }

    /** `deleteProfileImage`: removes the principal's profile image record and its blob;
        nothing changes when there is none, and post images are never touched. */
    method DeleteProfileImage(principal: string) returns (r: Result<Unit>)
      requires Valid()
      modifies imageRepository, s3
      ensures Valid()
      ensures GetUserByPrincipal(userRepository, principal).Err? ==>
        && r == Err(GetUserByPrincipal(userRepository, principal).error)
        && imageRepository.images == old(imageRepository.images) && s3.objects == old(s3.objects)
      ensures GetUserByPrincipal(userRepository, principal).Ok? ==>
        var user := GetUserByPrincipal(userRepository, principal).value;
        && (r.Ok? <==> |ProfileImagesOf(old(imageRepository.images), user.id)| <= 1)
        && (ProfileImagesOf(old(imageRepository.images), user.id) == [] ==>
              imageRepository.images == old(imageRepository.images) && s3.objects == old(s3.objects))
        && (r.Err? ==>
              && r.error.cls == IncorrectResultSizeDataAccessException
              && imageRepository.images == old(imageRepository.images) && s3.objects == old(s3.objects))
        && (r.Ok? ==>
              && imageRepository.images == Filter(old(imageRepository.images), (x: ImageModel) => !IsProfileImageOf(x, user.id))
              && s3.objects == old(s3.objects) - KeysOf(ProfileImagesOf(old(imageRepository.images), user.id))
              && ProfileImagesOf(imageRepository.images, user.id) == [])
      ensures forall postId: nat :: ImagesOfPost(imageRepository.images, postId) == ImagesOfPost(old(imageRepository.images), postId)
    {
      var found := GetUserByPrincipal(userRepository, principal);
      if found.Err? {
        return Err(found.error);
      }
      var user := found.value;
      RemovingProfileImages(imageRepository.images, user.id);
      r := RemoveProfileImage(user.id);
    }

    /** `uploadImageToUser`: replaces the principal's profile image. The old record and
        blob are removed first, so a file whose bytes cannot be read leaves the user with
        no profile image. */
    method UploadImageToUser(file: MultipartFile, principal: string) returns (r: Result<Unit>)
      requires Valid()
      modifies imageRepository, s3
      ensures Valid()
      ensures GetUserByPrincipal(userRepository, principal).Err? ==>
        && r == Err(GetUserByPrincipal(userRepository, principal).error)
        && imageRepository.images == old(imageRepository.images) && s3.objects == old(s3.objects)
      ensures GetUserByPrincipal(userRepository, principal).Ok? ==>
        var user := GetUserByPrincipal(userRepository, principal).value;
        var kept := Filter(old(imageRepository.images), (x: ImageModel) => !IsProfileImageOf(x, user.id));
        var blobs := old(s3.objects) - KeysOf(ProfileImagesOf(old(imageRepository.images), user.id));
        var key := ProfileKey(user.id, file.originalFilename);
        var saved := ImageModel(old(imageRepository.nextId), file.originalFilename, Some(user.id), None, key, None);
        && (r.Ok? <==> |ProfileImagesOf(old(imageRepository.images), user.id)| <= 1 && file.content.Some?)
        && (|ProfileImagesOf(old(imageRepository.images), user.id)| > 1 ==>
              && r.Err? && r.error.cls == IncorrectResultSizeDataAccessException
              && imageRepository.images == old(imageRepository.images) && s3.objects == old(s3.objects))
        && (|ProfileImagesOf(old(imageRepository.images), user.id)| <= 1 && file.content.None? ==>
              && r == Err(Failure(IOException, None))
              && imageRepository.images == kept && s3.objects == blobs)
        && (r.Ok? ==>
              && imageRepository.images == kept + [saved]
              && s3.objects == blobs[key := file.content.value]
              && ProfileImagesOf(imageRepository.images, user.id) == [saved]
              && GetImageToUser(principal) == Ok(saved.(imageBytes := file.content)))
      ensures r.Ok? ==>
        forall postId: nat :: ImagesOfPost(imageRepository.images, postId) == ImagesOfPost(old(imageRepository.images), postId)
    {
      var found := GetUserByPrincipal(userRepository, principal);
      if found.Err? {
        return Err(found.error);
      }
      var user := found.value;
      ghost var before := imageRepository.images;
      RemovingProfileImages(before, user.id);
      r := RemoveProfileImage(user.id);
      if r.Err? {
        return;
      }
      r := SaveProfileImage(user.id, file);
    }

    /** The storing half of `uploadImageToUser`, once the user has no profile image:
        the bytes go to the user's profile key and a record pointing at it is saved. */
    method SaveProfileImage(userId: nat, file: MultipartFile) returns (r: Result<Unit>)
      requires imageRepository.Valid()
      requires ProfileImagesOf(imageRepository.images, userId) == []
      modifies imageRepository, s3
      ensures imageRepository.Valid()
      ensures r.Ok? <==> file.content.Some?
      ensures r.Err? ==>
        && r == Err(Failure(IOException, None))
        && imageRepository.images == old(imageRepository.images) && s3.objects == old(s3.objects)
      ensures r.Ok? ==>
        var key := ProfileKey(userId, file.originalFilename);
        var saved := ImageModel(old(imageRepository.nextId), file.originalFilename, Some(userId), None, key, None);
        && imageRepository.images == old(imageRepository.images) + [saved]
        && s3.objects == old(s3.objects)[key := file.content.value]
        && ProfileImagesOf(imageRepository.images, userId) == [saved]
      ensures forall postId: nat ::
        ImagesOfPost(imageRepository.images, postId) == ImagesOfPost(old(imageRepository.images), postId)
    {
      var key := ProfileKey(userId, file.originalFilename);
      if file.content.None? {
        return Err(Failure(IOException, None));
      }
      ghost var before := imageRepository.images;
      s3.PutObject(key, file.content.value);
      var saved := imageRepository.Insert(ImageModel(0, file.originalFilename, Some(userId), None, key, None));
      ProfileImagesOfAppend(before, saved, userId);
      forall postId: nat
        ensures ImagesOfPost(imageRepository.images, postId) == ImagesOfPost(before, postId)
      {
        ImagesOfPostAppend(before, saved, postId);
      }
      return Ok(Unit);
    }

    /** `uploadImageToPost`: stores the file as a further image of one of the principal's
        own posts; earlier images of the post stay. */
    method UploadImageToPost(file: MultipartFile, principal: string, postId: nat) returns (r: Result<Unit>)
      requires Valid()
      modifies imageRepository, s3
      ensures Valid()
      ensures r.Err? ==> imageRepository.images == old(imageRepository.images) && s3.objects == old(s3.objects)
      ensures GetUserByPrincipal(userRepository, principal).Err? ==>
        r == Err(GetUserByPrincipal(userRepository, principal).error)
      ensures GetUserByPrincipal(userRepository, principal).Ok? ==>
        var user := GetUserByPrincipal(userRepository, principal).value;
        var key := PostKey(postId, file.originalFilename);
        var saved := ImageModel(old(imageRepository.nextId), file.originalFilename, Some(user.id), Some(postId), key, None);
        && (!OwnsPost(postRepository.posts, postId, user.id) ==> r == Err(Failure(IllegalStateException, None)))
        && (OwnsPost(postRepository.posts, postId, user.id) && file.content.None? ==> r == Err(Failure(IOException, None)))
        && (r.Ok? <==> OwnsPost(postRepository.posts, postId, user.id) && file.content.Some?)
        && (r.Ok? ==>
              && imageRepository.images == old(imageRepository.images) + [saved]
              && s3.objects == old(s3.objects)[key := file.content.value]
              && ImagesOfPost(imageRepository.images, postId) == ImagesOfPost(old(imageRepository.images), postId) + [saved])
        && (r.Ok? && ImagesOfPost(old(imageRepository.images), postId) == [] ==>
              GetImageToPost(postId) == Ok(saved.(imageBytes := file.content)))
        && (r.Ok? && ImagesOfPost(old(imageRepository.images), postId) != [] ==>
              GetImageToPost(postId).Err? && GetImageToPost(postId).error.cls == IncorrectResultSizeDataAccessException)
      ensures r.Ok? ==>
        forall u: nat :: ProfileImagesOf(imageRepository.images, u) == ProfileImagesOf(old(imageRepository.images), u)
    {
      var found := GetUserByPrincipal(userRepository, principal);
      if found.Err? {
        return Err(found.error);
      }
      var user := found.value;
      OwnedPostsWithIdAtMostOne(postRepository.posts, user.id, postId);
      var post := ToSingle(OwnedPostsWithId(postRepository.posts, user.id, postId));
      if post.Err? {
        return Err(post.error);
      }
      var key := PostKey(postId, file.originalFilename);
      if file.content.None? {
        return Err(Failure(IOException, None));
      }
      ghost var before := imageRepository.images;
      s3.PutObject(key, file.content.value);
      var saved := imageRepository.Insert(ImageModel(0, file.originalFilename, Some(user.id), Some(post.value.id), key, None));
      ImagesOfPostAppend(before, saved, postId);
      forall u: nat
        ensures ProfileImagesOf(imageRepository.images, u) == ProfileImagesOf(before, u)
      {
        ProfileImagesOfAppend(before, saved, u);
      }
      return Ok(Unit);
    }

    /** `getImageToUser`: the principal's profile image with its bytes. */
    function GetImageToUser(principal: string): (r: Result<ImageModel>)
      reads userRepository, imageRepository, s3
      ensures GetUserByPrincipal(userRepository, principal).Err? ==>
        r == Err(GetUserByPrincipal(userRepository, principal).error)
      ensures GetUserByPrincipal(userRepository, principal).Ok? ==>
        var user := GetUserByPrincipal(userRepository, principal).value;
        var rows := ProfileImagesOf(imageRepository.images, user.id);
        && (rows == [] ==>
              r == Err(Failure(ImageNotFoundException, Some("Cannot find image for User: " + Text.NatToString(user.id)))))
        && (|rows| > 1 ==> r.Err? && r.error.cls == IncorrectResultSizeDataAccessException)
        && (|rows| == 1 && rows[0].s3Key in s3.objects ==> r.Ok?)
        && (|rows| == 1 && rows[0].s3Key !in s3.objects ==> r.Err? && r.error.cls == NoSuchKeyException)
        && (r.Ok? ==> |rows| == 1 && rows[0].s3Key in s3.objects && r.value == rows[0].(imageBytes := Some(s3.objects[rows[0].s3Key])))
    {
      match GetUserByPrincipal(userRepository, principal)
      case Err(e) => Err(e)
      case Ok(user) =>
        WithBytes(ProfileImagesOf(imageRepository.images, user.id),
          Failure(ImageNotFoundException, Some("Cannot find image for User: " + Text.NatToString(user.id))))
    }

    /** `getProfileImageToPost`: the profile image of the user with that id, with its bytes. */
    function GetProfileImageToPost(userId: nat): (r: Result<ImageModel>)
      reads imageRepository, s3
      ensures var rows := ProfileImagesOf(imageRepository.images, userId);
        && (rows == [] ==>
              r == Err(Failure(ImageNotFoundException, Some("Cannot find profile image for User: " + Text.NatToString(userId)))))
        && (|rows| > 1 ==> r.Err? && r.error.cls == IncorrectResultSizeDataAccessException)
        && (|rows| == 1 && rows[0].s3Key in s3.objects ==> r.Ok?)
        && (|rows| == 1 && rows[0].s3Key !in s3.objects ==> r.Err? && r.error.cls == NoSuchKeyException)
        && (r.Ok? ==> |rows| == 1 && rows[0].s3Key in s3.objects && r.value == rows[0].(imageBytes := Some(s3.objects[rows[0].s3Key])))
    {
      WithBytes(ProfileImagesOf(imageRepository.images, userId),
        Failure(ImageNotFoundException, Some("Cannot find profile image for User: " + Text.NatToString(userId))))
    }

    /** `getImageToPost`: the image of the post with that id, with its bytes. */
    function GetImageToPost(postId: nat): (r: Result<ImageModel>)
      reads imageRepository, s3
      ensures var rows := ImagesOfPost(imageRepository.images, postId);
        && (rows == [] ==>
              r == Err(Failure(ImageNotFoundException, Some("Cannot find image for Post: " + Text.NatToString(postId)))))
        && (|rows| > 1 ==> r.Err? && r.error.cls == IncorrectResultSizeDataAccessException)
        && (|rows| == 1 && rows[0].s3Key in s3.objects ==> r.Ok?)
        && (|rows| == 1 && rows[0].s3Key !in s3.objects ==> r.Err? && r.error.cls == NoSuchKeyException)
        && (r.Ok? ==> |rows| == 1 && rows[0].s3Key in s3.objects && r.value == rows[0].(imageBytes := Some(s3.objects[rows[0].s3Key])))
    {
      WithBytes(ImagesOfPost(imageRepository.images, postId),
        Failure(ImageNotFoundException, Some("Cannot find image for Post: " + Text.NatToString(postId))))
    }
  }
}
