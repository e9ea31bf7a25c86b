/**
 * The persisted entities, the view objects (DTOs) sent to clients and the request
 * payloads, as values. Identifiers are the ORM's surrogate keys; a nullable column is
 * an `Option`.
 */
module Entities {

  import opened Failures

  type Bytes = seq<bv8>

  datatype ERole = ROLE_USER

  /** A user account (`User` entity). `name` is the first name. */
  datatype User = User(
    id: nat,
    email: string,
    name: string,
    lastname: string,
    username: string,
    bio: Option<string>,
    password: string,
    roles: set<ERole>)

  /** The part of the owning `User` a post refers to: the fields that never change
      after signup. */
  datatype UserRef = UserRef(id: nat, username: string)

  /** A post (`Post` entity): `likes` is meant to equal the size of `likedUsers`. */
  datatype Post = Post(
    id: nat,
    title: string,
    caption: string,
    location: string,
    likes: int,
    likedUsers: set<string>,
    user: UserRef,
    createdAt: nat)

  /** A comment on a post (`Comment` entity). */
  datatype Comment = Comment(
    id: nat,
    postId: nat,
    username: string,
    userId: nat,
    message: string,
    createdAt: nat)

  /** An image record (`ImageModel` entity): a profile image has a user and no post; the
      bytes live in the blob store under `s3Key` and are attached only on reads. */
  datatype ImageModel = ImageModel(
    id: nat,
    name: string,
    userId: Option<nat>,
    postId: Option<nat>,
    s3Key: string,
    imageBytes: Option<Bytes>)

  /** A named conversation (`Chat` entity); `participant` is free text. */
  datatype Chat = Chat(chatId: nat, name: string, participant: Option<string>)

  /** A stored chat message (`Message` entity); `chatId` is its `chat` reference. */
  datatype Message = Message(
    msId: nat,
    chatId: Option<nat>,
    sender: string,
    tStamp: string,
    content: string)

  /** The JSON body of a chat frame as the client sends it (no id, no chat). */
  datatype MessageFrame = MessageFrame(sender: string, tStamp: string, content: string)

  datatype PostDTO = PostDTO(
    id: nat,
    title: string,
    caption: string,
    location: string,
    username: string,
    userId: nat,
    likes: int,
    usersLiked: set<string>)

  datatype UserDTO = UserDTO(
    id: nat,
    firstname: string,
    lastname: string,
    username: string,
    bio: Option<string>)

  datatype CommentDTO = CommentDTO(id: nat, message: string, username: string)

  datatype SignupRequest = SignupRequest(
    email: string,
    firstname: string,
    lastname: string,
    username: string,
    password: string,
    confirmPassword: string)

  /** An uploaded file; `content` is None when reading its bytes fails with an
      `IOException`. */
  datatype MultipartFile = MultipartFile(originalFilename: string, content: Option<Bytes>)
}
