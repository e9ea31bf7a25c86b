/**
 * In-memory stand-ins for the persistence layer: one class per Spring Data repository
 * (a table held as a sequence in insertion order, with the next generated id), the
 * object store (a map from key to bytes) and the STOMP messaging template (the
 * sequence of published frames). Derived queries are the functions below.
 */
module Repositories {

  import opened Failures
  import opened Entities
  import opened Seqs
  import Text

  /** A derived query declared to return one row (`Optional<T>` or `T`): no row, the
      row, or `IncorrectResultSizeDataAccessException` when several rows match. */
  function SingleResult<T>(rows: seq<T>): (r: Result<Option<T>>)
    ensures r.Ok? <==> |rows| <= 1
    ensures r == Ok(None) <==> |rows| == 0
    ensures |rows| == 1 ==> r == Ok(Some(rows[0]))
    ensures r.Err? ==> r.error.cls == IncorrectResultSizeDataAccessException
  {
    if |rows| == 0 then Ok(None)
    else if |rows| == 1 then Ok(Some(rows[0]))
    else Err(Failure(IncorrectResultSizeDataAccessException, Some("query did not return a unique result")))
  }

  /** A profile image of the user: the record has that user and no post. */
  predicate IsProfileImageOf(m: ImageModel, userId: nat)
  {
    m.userId == Some(userId) && m.postId.None?
  }

  /** `ImageRepository.findByUserIdAndPostId(userId, null)`'s rows: the user's profile images. */
  function ProfileImagesOf(images: seq<ImageModel>, userId: nat): seq<ImageModel>
  {
    Filter(images, (m: ImageModel) => IsProfileImageOf(m, userId))
  }

  /** The blob keys of the given image records. */
  function KeysOf(rows: seq<ImageModel>): set<string>
  {
    if rows == [] then {} else {rows[0].s3Key} + KeysOf(rows[1..])
  }

  /** `ImageRepository.findByPostId(postId)`'s rows: the images attached to the post. */
  function ImagesOfPost(images: seq<ImageModel>, postId: nat): seq<ImageModel>
  {
    Filter(images, (m: ImageModel) => m.postId == Some(postId))
  }

  /** The users table; email and username carry unique constraints. */
  class UserRepository {
    var users: seq<User>
    var nextId: nat

    ghost predicate Valid()
      reads this
    {
      && (forall i :: 0 <= i < |users| ==> users[i].id < nextId)
      && IncreasingBy(users, (u: User) => u.id)
      && (forall i, j :: 0 <= i < j < |users| ==>
            users[i].username != users[j].username && users[i].email != users[j].email)
    }

    constructor ()
      ensures Valid() && users == []
    {
      users, nextId := [], 1;
    }

    /** Saving `u` as a new row would violate a unique constraint. */
    predicate Conflicts(u: User)
      reads this
    {
      exists i :: 0 <= i < |users| && (users[i].email == u.email || users[i].username == u.username)
    }

    /** `findUserByUsername`. */
    function FindUserByUsername(username: string): (r: Option<User>)
      reads this
      ensures r.Some? ==> r.value in users && r.value.username == username
      ensures r.None? <==> forall i :: 0 <= i < |users| ==> users[i].username != username
    {
      First(users, (u: User) => u.username == username)
    }

    /** `findById`. */
    function FindById(id: nat): (r: Option<User>)
      reads this
      ensures r.Some? ==> r.value in users && r.value.id == id
      ensures r.None? <==> forall i :: 0 <= i < |users| ==> users[i].id != id
    {
      First(users, (u: User) => u.id == id)
    }

    /** `save` of a new user: the row gets the next id, unless a unique constraint fails. */
    method Insert(u: User) returns (ok: bool, saved: User)
      requires Valid()
      modifies this
      ensures Valid()
      ensures ok <==> !old(Conflicts(u))
      ensures ok ==> saved == u.(id := old(nextId)) && users == old(users) + [saved]
      ensures !ok ==> users == old(users)
    {
      ok := !Conflicts(u);
      saved := u.(id := nextId);
      if ok {
        users := users + [saved];
        nextId := nextId + 1;
      }
    }

    /** `save` of an existing user whose username and email are unchanged. */
    method Update(u: User)
      requires Valid()
      requires exists i :: 0 <= i < |users| && users[i].id == u.id && users[i].username == u.username && users[i].email == u.email
      modifies this
      ensures Valid() && nextId == old(nextId)
      ensures users == UpdateWhere(old(users), (v: User) => v.id == u.id, u)
    {
      users := UpdateWhere(users, (v: User) => v.id == u.id, u);
    }
  }

  /** The posts table. Rows are appended in creation order; `clock` stands for the
      creation instant the next row receives. */
  class PostRepository {
    var posts: seq<Post>
    var nextId: nat
    var clock: nat

    ghost predicate Valid()
      reads this
    {
      && (forall i :: 0 <= i < |posts| ==> posts[i].id < nextId && posts[i].createdAt < clock)
      && IncreasingBy(posts, (p: Post) => p.id)
      && IncreasingBy(posts, (p: Post) => p.createdAt)
    }

    constructor ()
      ensures Valid() && posts == []
    {
      posts, nextId, clock := [], 1, 0;
    }

    /** `findById`. */
    function FindById(id: nat): (r: Option<Post>)
      reads this
      ensures r.Some? ==> r.value in posts && r.value.id == id
      ensures r.None? <==> forall i :: 0 <= i < |posts| ==> posts[i].id != id
    {
      First(posts, (p: Post) => p.id == id)
    }

    /** `save` of a new post: it gets the next id and the current creation time. */
    method Insert(p: Post) returns (saved: Post)
      requires Valid()
      modifies this
      ensures Valid()
      ensures saved == p.(id := old(nextId), createdAt := old(clock))
      ensures posts == old(posts) + [saved]
    {
      saved := p.(id := nextId, createdAt := clock);
      posts := posts + [saved];
      nextId, clock := nextId + 1, clock + 1;
    }

    /** `save` of an existing post: the row with the same id is overwritten. */
    method Update(p: Post)
      requires Valid()
      requires exists i :: 0 <= i < |posts| && posts[i].id == p.id && posts[i].createdAt == p.createdAt
      modifies this
      ensures Valid() && nextId == old(nextId) && clock == old(clock)
      ensures posts == UpdateWhere(old(posts), (q: Post) => q.id == p.id, p)
    {
      posts := UpdateWhere(posts, (q: Post) => q.id == p.id, p);
    }

    /** `delete`. */
    method Delete(id: nat)
      requires Valid()
      modifies this
      ensures Valid() && nextId == old(nextId) && clock == old(clock)
      ensures posts == Filter(old(posts), (q: Post) => q.id != id)
    {
      FilterKeepsIncreasing(posts, (q: Post) => q.id != id, (p: Post) => p.id);
      FilterKeepsIncreasing(posts, (q: Post) => q.id != id, (p: Post) => p.createdAt);
      posts := Filter(posts, (q: Post) => q.id != id);
    }
  }

  /** The image records table. */
  class ImageRepository {
    var images: seq<ImageModel>
    var nextId: nat

    ghost predicate Valid()
      reads this
    {
      && (forall i :: 0 <= i < |images| ==> images[i].id < nextId)
      && IncreasingBy(images, (m: ImageModel) => m.id)
    }

    constructor ()
      ensures Valid() && images == []
    {
      images, nextId := [], 1;
    }

    /** `save` of a new record: it gets the next id. */
    method Insert(m: ImageModel) returns (saved: ImageModel)
      requires Valid()
      modifies this
      ensures Valid()
      ensures saved == m.(id := old(nextId))
      ensures images == old(images) + [saved]
    {
      saved := m.(id := nextId);
      images := images + [saved];
      nextId := nextId + 1;
    }

    /** `delete`. */
    method Delete(id: nat)
      requires Valid()
      modifies this
      ensures Valid() && nextId == old(nextId)
      ensures images == Filter(old(images), (m: ImageModel) => m.id != id)
    {
      FilterKeepsIncreasing(images, (m: ImageModel) => m.id != id, (m: ImageModel) => m.id);
      images := Filter(images, (m: ImageModel) => m.id != id);
    }
  }

  /** The object store bucket holding image bytes by key. */
  class BlobStore {
    var objects: map<string, Bytes>

    constructor ()
      ensures objects == map[]
    {
      objects := map[];
    }

    method PutObject(key: string, bytes: Bytes)
      modifies this
      ensures objects == old(objects)[key := bytes]
    {
      objects := objects[key := bytes];
    }

    /** Deleting a key that holds nothing is not an error. */
    method DeleteObject(key: string)
      modifies this
      ensures objects == old(objects) - {key}
    {
      objects := objects - {key};
    }

    /** Reading a key that holds nothing fails with `NoSuchKeyException`. */
    function GetObject(key: string): (r: Result<Bytes>)
      reads this
      ensures r.Ok? <==> key in objects
      ensures r.Ok? ==> r.value == objects[key]
      ensures r.Err? ==> r.error.cls == NoSuchKeyException
    {
      if key in objects then Ok(objects[key])
      else Err(Failure(NoSuchKeyException, Some("The specified key does not exist.")))
    }
  }

  /** The chats table. */
  class ChatRepository {
    var chats: seq<Chat>
    var nextId: nat

    ghost predicate Valid()
      reads this
    {
      && (forall i :: 0 <= i < |chats| ==> chats[i].chatId < nextId)
      && IncreasingBy(chats, (c: Chat) => c.chatId)
    }

    constructor ()
      ensures Valid() && chats == []
    {
      chats, nextId := [], 1;
    }

    /** `findChatByName`: null when no chat has the name, the chat when one has it, and
        `IncorrectResultSizeDataAccessException` when several have it. */
    function FindChatByName(name: string): (r: Result<Option<Chat>>)
      reads this
      ensures r == Ok(None) <==> forall i :: 0 <= i < |chats| ==> chats[i].name != name
      ensures r.Err? <==> exists i, j :: 0 <= i < j < |chats| && chats[i].name == name && chats[j].name == name
      ensures r.Err? ==> r.error.cls == IncorrectResultSizeDataAccessException
      ensures r.Ok? && r.value.Some? ==> r.value.value in chats && r.value.value.name == name
    {
      NamedRows(chats, name);
      SingleResult(Filter(chats, (c: Chat) => c.name == name))
    }

    /** `findByParticipantContaining`: a null participant matches nothing. */
    function FindByParticipantContaining(participant: string): (r: seq<Chat>)
      reads this
      ensures forall i :: 0 <= i < |r| ==>
        r[i] in chats && r[i].participant.Some? && Text.Contains(r[i].participant.value, participant)
      ensures forall i :: 0 <= i < |chats| ==>
        (chats[i].participant.Some? && Text.Contains(chats[i].participant.value, participant) ==> chats[i] in r)
    {
      Filter(chats, (c: Chat) => c.participant.Some? && Text.Contains(c.participant.value, participant))
    }

    /** `save` of a new chat: it gets the next id. */
    method Insert(c: Chat) returns (saved: Chat)
      requires Valid()
      modifies this
      ensures Valid()
      ensures saved == c.(chatId := old(nextId)) && nextId == old(nextId) + 1
      ensures chats == old(chats) + [saved]
    {
      saved := c.(chatId := nextId);
      chats := chats + [saved];
      nextId := nextId + 1;
    }
  }

  /** How many chats the name query returns: none exactly when no chat has the name,
      more than one exactly when two chats have it. */
  lemma NamedRows(chats: seq<Chat>, name: string)
    ensures |Filter(chats, (c: Chat) => c.name == name)| == 0 <==> forall i :: 0 <= i < |chats| ==> chats[i].name != name
    ensures |Filter(chats, (c: Chat) => c.name == name)| > 1 <==>
      exists i, j :: 0 <= i < j < |chats| && chats[i].name == name && chats[j].name == name
  {
    var keep := (c: Chat) => c.name == name;
    if forall i :: 0 <= i < |chats| ==> chats[i].name != name {
      FilterNone(chats, keep);
    }
    if exists i, j :: 0 <= i < j < |chats| && chats[i].name == name && chats[j].name == name {
      var i, j :| 0 <= i < j < |chats| && chats[i].name == name && chats[j].name == name;
      FilterTwo(chats, keep, i, j);
    } else {
      FilterAtMostOne(chats, keep);
    }
  }

  /** The messages table. */
  class MessageRepository {
    var messages: seq<Message>
    var nextId: nat

    ghost predicate Valid()
      reads this
    {
      && (forall i :: 0 <= i < |messages| ==> messages[i].msId < nextId)
      && IncreasingBy(messages, (m: Message) => m.msId)
    }

    constructor ()
      ensures Valid() && messages == []
    {
      messages, nextId := [], 1;
    }

    /** `findAllByChat`: the messages of the chat, in storage order. */
    function FindAllByChat(chatId: nat): (r: seq<Message>)
      reads this
      ensures forall i :: 0 <= i < |r| ==> r[i] in messages && r[i].chatId == Some(chatId)
      ensures forall i :: 0 <= i < |messages| && messages[i].chatId == Some(chatId) ==> messages[i] in r
    {
      Filter(messages, (m: Message) => m.chatId == Some(chatId))
    }

    /** `save` of a new message: it gets the next id. */
    method Insert(m: Message) returns (saved: Message)
      requires Valid()
      modifies this
      ensures Valid()
      ensures saved == m.(msId := old(nextId)) && nextId == old(nextId) + 1
      ensures messages == old(messages) + [saved]
    {
      saved := m.(msId := nextId);
      messages := messages + [saved];
      nextId := nextId + 1;
    }
  }

  /** A frame handed to the broker for delivery to a topic's subscribers. */
  datatype Publication = Publication(destination: string, payload: Message)

  /** `SimpMessagingTemplate`: what was published, in order. */
  class MessageBroker {
    var published: seq<Publication>

    constructor ()
      ensures published == []
    {
      published := [];
    }

    method ConvertAndSend(destination: string, payload: Message)
      modifies this
      ensures published == old(published) + [Publication(destination, payload)]
    {
      published := published + [Publication(destination, payload)];
    }
  }
}
