/**
 * `PostMapper`, `UserMapper` and `CommentMapper`: the views sent to clients, built field
 * by field from the entities. What each view leaves out is stated as the view not
 * depending on those fields.
 */
module Mappers {

  import opened Entities
  import opened PostServices

  /** `postToPostDTO`. */
  function PostToPostDTO(post: Post): (dto: PostDTO)
    ensures dto.id == post.id && dto.title == post.title
    ensures dto.caption == post.caption && dto.location == post.location
    ensures dto.userId == post.user.id && dto.username == post.user.username
    ensures dto.likes == post.likes && dto.usersLiked == post.likedUsers
  {
    PostDTO(post.id, post.title, post.caption, post.location, post.user.username, post.user.id,
            post.likes, post.likedUsers)
  }

  /** The view's like counter is the number of users in its liker set. */
  predicate DTOLikesConsistent(dto: PostDTO)
  {
    dto.likes == |dto.usersLiked|
  }

  /** The view satisfies the like invariant exactly when the post does. */
  lemma PostToPostDTOKeepsLikes(post: Post)
    ensures DTOLikesConsistent(PostToPostDTO(post)) <==> LikesConsistent(post)
  {
  }

  /** The post view does not depend on the creation time. */
  lemma PostToPostDTOIgnoresCreatedAt(post: Post, createdAt: nat)
    ensures PostToPostDTO(post.(createdAt := createdAt)) == PostToPostDTO(post)
  {
  }

  /** `userToUserDTO`: the first name is the user's `name`. */
  function UserToUserDTO(user: User): (dto: UserDTO)
    ensures dto.id == user.id && dto.firstname == user.name && dto.lastname == user.lastname
    ensures dto.username == user.username && dto.bio == user.bio
  {
    UserDTO(user.id, user.name, user.lastname, user.username, user.bio)
  }

  /** The user view exposes neither the email, nor the password hash, nor the roles. */
  lemma UserToUserDTOHidesCredentials(user: User, email: string, password: string, roles: set<ERole>)
    ensures UserToUserDTO(user.(email := email, password := password, roles := roles)) == UserToUserDTO(user)
  {
  }

  /** `commentToCommentDTO`. */
  function CommentToCommentDTO(comment: Comment): (dto: CommentDTO)
    ensures dto.id == comment.id && dto.username == comment.username && dto.message == comment.message
  {
    CommentDTO(comment.id, comment.message, comment.username)
  }

  /** The comment view carries neither the post, nor the author's id, nor the time. */
  lemma CommentToCommentDTOHidesContext(comment: Comment, postId: nat, userId: nat, createdAt: nat)
    ensures CommentToCommentDTO(comment.(postId := postId, userId := userId, createdAt := createdAt))
            == CommentToCommentDTO(comment)
  {
  }
}
