# Instaclone core in Dafny

Instaclone is a photo-sharing service. It has a Spring Boot back end and an Angular front end.
This project models the logic at its core:

- **Posts** (`PostService`): creating a post, listing posts newest first, owner-scoped lookup, the like toggle, and deletion. Deleting a post also removes its image record and the image's blob.
- **Images** (`ImageUploadService`): each user has at most one profile image. A post can have any number of images. The bytes live in an object store under a key made from the user's or the post's id and the file name.
- **Users** (`UserService`): signup, profile update and lookups.
- **Mappers** (`PostMapper`, `UserMapper`, `CommentMapper`): the views sent to clients.
- **Errors** (`GlobalExceptionHandler`): the HTTP response chosen for each exception class.
- **Chat server** (`ChatController`): chats found or created by name, and messages stamped with the server time, stored and published to the chat's topic.
- **Chat page** (the Angular `ChatComponent`): the shared channel name, the frames it sends, the topic it listens to, ordering by message id, and the display helpers.

Modules and files:

| file | module | contents |
|---|---|---|
| `failures.dfy` | `Failures` | `Option`, `Result`, the exception classes and their hierarchy |
| `text.dfy` | `Text` | decimal rendering and parsing, `indexOf`, `replace`, JavaScript `substring` |
| `seqs.dfy` | `Seqs` | filter, reverse and first-match on sequences, with their lemmas |
| `entities.dfy` | `Entities` | the JPA entities, the views and the requests, as datatypes |
| `repositories.dfy` | `Repositories` | one class per Spring Data repository, plus the object store and the messaging template |
| `post_service.dfy` | `PostServices` | `PostService` |
| `image_upload_service.dfy` | `ImageServices` | `ImageUploadService` |
| `user_service.dfy` | `UserServices` | `UserService` |
| `mappers.dfy` | `Mappers` | the three mappers |
| `exception_handler.dfy` | `Advice` | `GlobalExceptionHandler` and handler resolution |
| `chat_controller.dfy` | `ChatControllers` | `ChatController` |
| `chat_component.dfy` | `ChatClient` | `chat.component.ts` |

How the source becomes Dafny:

- **Repositories and services are classes.** A repository is a table held as a sequence in insertion order, plus the next generated id. Services hold their repositories as `const` fields, the way Spring injects them. A service method lists in `modifies` the repositories it writes.
- **Entities are values.** "Change the entity, then `save` it" becomes "replace the row with the same id".
- **Failures are results.** A thrown exception is an `Err` carrying the exception class and its message.
- **Single-row queries.** A derived query returning `Optional<T>` or `T` yields `IncorrectResultSizeDataAccessException` when several rows match. `Repositories.SingleResult` models this.
- **Creation time.** The post table keeps a `clock` counter for it. Newest-first ordering is proved from the table invariant that rows are appended in creation order.
- **Inputs from the outside world.** The server clock is passed in as the instant's ISO-8601 text plus its UTC hour and minute. The password encoder is a function parameter. What the chat page receives over HTTP arrives as a method parameter.

## Model

| member | source | states |
|---|---|---|
| Failures.Parent | instaclone_back/src/main/java/com/example/instaclone/exceptions/AuthorizationException.java:7 | every exception class except the root has exactly one superclass, one level nearer the root; the custom exceptions sit under `RuntimeException` |
| Text.NatToString | instaclone_back/src/main/java/com/example/instaclone/web/ChatController.java:83 | a number's decimal text (`toString`) is non-empty, all digits, and has no leading zero |
| Text.ParseNatToString | instaclone_back/src/main/java/com/example/instaclone/web/ChatController.java:83 | reading back a number's decimal text gives the number |
| Text.IndexOf | instaclone_back/src/main/java/com/example/instaclone/web/ChatController.java:79 | `indexOf` is -1 exactly when the character is absent; otherwise it is the position of its first occurrence |
| Text.JsSubstring | instaclone_front/src/app/chat/chat.component.ts:147-148 | JavaScript `substring`: within bounds it is the slice between them, it is never longer than the string, and two bounds at or below 0 give the empty string |
| Repositories.SingleResult | instaclone_back/src/main/java/com/example/instaclone/repository/ImageRepository.java:14-16 | an `Optional` query gives empty for no row and the row for one row; for several rows it fails with `IncorrectResultSizeDataAccessException` |
| Repositories.UserRepository.Insert | instaclone_back/src/main/java/com/example/instaclone/services/UserService.java:39 | saving a new user fails exactly when the email or the username is already taken; otherwise the user is stored with a fresh id and the uniqueness invariants are kept |
| Repositories.UserRepository.FindUserByUsername | instaclone_back/src/main/java/com/example/instaclone/services/UserService.java:61 | a stored user with that username, or nothing exactly when no stored user has it |
| Repositories.UserRepository.FindById | instaclone_back/src/main/java/com/example/instaclone/services/UserService.java:66 | a stored user with that id, or nothing exactly when no stored user has it |
| Repositories.ChatRepository.FindChatByName | instaclone_back/src/main/java/com/example/instaclone/repository/ChatRepository.java:8 | null exactly when no chat has the name; `IncorrectResultSizeDataAccessException` exactly when two chats have it; otherwise a stored chat with that name |
| Repositories.MessageRepository.FindAllByChat | instaclone_back/src/main/java/com/example/instaclone/repository/MessageRepository.java:9 | exactly the stored messages whose chat is the given one |
| Repositories.ChatRepository.FindByParticipantContaining | instaclone_back/src/main/java/com/example/instaclone/repository/ChatRepository.java:9 | the result holds exactly the stored chats whose participant text contains the argument |
| PostServices.ToggleLike | instaclone_back/src/main/java/com/example/instaclone/services/PostService.java:77-87 | the user is a liker afterwards exactly when they were not before; no other user's like changes; the counter moves by one the same way; no other field changes |
| PostServices.ToggleLikeKeepsConsistent | instaclone_back/src/main/java/com/example/instaclone/services/PostService.java:81-86 | the toggle keeps the like counter equal to the number of likers |
| PostServices.ToggleLikeTwice | instaclone_back/src/main/java/com/example/instaclone/services/PostService.java:77-87 | liking twice with the same user restores the post |
| PostServices.FilterKeepsLikesConsistent | instaclone_back/src/main/java/com/example/instaclone/services/PostService.java:94 | deleting posts keeps the like invariant of the remaining posts |
| PostServices.OrderByCreatedAtDesc | instaclone_back/src/main/java/com/example/instaclone/services/PostService.java:59 | the listing is a permutation of the table, strictly newest first when rows were appended in creation order |
| PostServices.PostsOfNewestFirst | instaclone_back/src/main/java/com/example/instaclone/services/PostService.java:68-71 | a user's newest-first listing equals the global newest-first listing restricted to that user |
| PostServices.GetUserByPrincipal | instaclone_back/src/main/java/com/example/instaclone/services/PostService.java:101-105 | found exactly when some stored user has the principal's name; otherwise `UsernameNotFoundException("Username not found")` |
| PostServices.PostService.CreatePost | instaclone_back/src/main/java/com/example/instaclone/services/PostService.java:45-56 | for a known principal, appends a post with the view's title, caption and location, the principal's user, no likes and a fresh id; for an unknown principal, fails and changes nothing |
| PostServices.PostService.GetAllPosts | instaclone_back/src/main/java/com/example/instaclone/services/PostService.java:58-60 | every stored post, each once, strictly newest first |
| PostServices.PostService.GetPostById | instaclone_back/src/main/java/com/example/instaclone/services/PostService.java:62-66 | succeeds exactly when the principal's user owns a post with that id, and returns that stored post; otherwise `PostNotFoundException` with the user's email in the message |
| PostServices.PostService.GetAllPostForUser | instaclone_back/src/main/java/com/example/instaclone/services/PostService.java:68-71 | exactly the principal's posts, strictly newest first, in the same order as in the global listing |
| PostServices.PostService.LikePost | instaclone_back/src/main/java/com/example/instaclone/services/PostService.java:73-89 | an unknown id fails with `PostNotFoundException`; otherwise only that post changes, by `ToggleLike`, and the like invariant holds for every post |
| PostServices.PostService.DeletePost | instaclone_back/src/main/java/com/example/instaclone/services/PostService.java:91-99 | succeeds exactly when the principal owns the post and it has at most one image; the post goes, then its image record and that record's blob; afterwards the post has no image; several images fail with `IncorrectResultSizeDataAccessException`; a failure changes nothing |
| PostServices.PostService.RemovePostRecords | instaclone_back/src/main/java/com/example/instaclone/services/PostService.java:94-98 | removes the post row, plus the image record and blob when there is one, keeping every table invariant |
| PostServices.PostService.RemoveImageRecord | instaclone_back/src/main/java/com/example/instaclone/services/PostService.java:95-98 | removes exactly the post's one image record and the blob at its key |
| PostServices.NoImageLeft | instaclone_back/src/main/java/com/example/instaclone/services/PostService.java:95-97 | deleting a post's only image record by id leaves the post with no image |
| ImageServices.ProfileKeyInjective | instaclone_back/src/main/java/com/example/instaclone/services/ImageUploadService.java:52 | different (user, file name) pairs give different profile-image keys |
| ImageServices.PostKeyInjective | instaclone_back/src/main/java/com/example/instaclone/services/ImageUploadService.java:78 | different (post, file name) pairs give different post-image keys |
| ImageServices.ProfileAndPostKeysDiffer | instaclone_back/src/main/java/com/example/instaclone/services/ImageUploadService.java:52 | a profile-image key never equals a post-image key |
| ImageServices.ToSingle | instaclone_back/src/main/java/com/example/instaclone/services/ImageUploadService.java:161-171 | the single element when there is exactly one; otherwise `IllegalStateException` |
| ImageServices.OwnedPostsWithIdAtMostOne | instaclone_back/src/main/java/com/example/instaclone/services/ImageUploadService.java:73-76 | at most one of the user's posts has the id, and one does exactly when the user owns a stored post with that id |
| ImageServices.OwnedPostIsStored | instaclone_back/src/main/java/com/example/instaclone/services/ImageUploadService.java:73-76 | a post the filter finds is a stored post with that id and owner |
| ImageServices.RemovingProfileImages | instaclone_back/src/main/java/com/example/instaclone/services/ImageUploadService.java:47-50 | removing a user's profile images leaves them none, and changes neither any post's images nor any other user's profile images |
| ImageServices.DeleteByIdRemovesProfileImages | instaclone_back/src/main/java/com/example/instaclone/services/ImageUploadService.java:47-50 | deleting the user's only profile image by its id removes exactly that user's profile images |
| ImageServices.ProfileImagesOfAppend | instaclone_back/src/main/java/com/example/instaclone/services/ImageUploadService.java:56-60 | saving a record adds it to the profile images of its user only, and only when it has no post |
| ImageServices.ImagesOfPostAppend | instaclone_back/src/main/java/com/example/instaclone/services/ImageUploadService.java:82-90 | saving a record adds it last to its own post's images and leaves every other post's images alone |
| ImageServices.ImageUploadService.WithBytes | instaclone_back/src/main/java/com/example/instaclone/services/ImageUploadService.java:93-103 | no row gives the "not found" error and several rows give `IncorrectResultSizeDataAccessException`; one row succeeds exactly when its key is in the store, and carries the stored bytes |
| ImageServices.ImageUploadService.RemoveProfileImage | instaclone_back/src/main/java/com/example/instaclone/services/ImageUploadService.java:47-50 | with at most one profile image, removes it and its blob (nothing when there is none); with several, fails and changes nothing |
| ImageServices.ImageUploadService.DeleteProfileImage | instaclone_back/src/main/java/com/example/instaclone/services/ImageUploadService.java:63-69 | removes the principal's profile image and blob, leaving them none; post images are never touched; several profile images fail with `IncorrectResultSizeDataAccessException` and change nothing; an unknown principal changes nothing |
| ImageServices.ImageUploadService.UploadImageToUser | instaclone_back/src/main/java/com/example/instaclone/services/ImageUploadService.java:43-61 | on success the principal has exactly one profile image, the new one, and reading it back gives the uploaded bytes; unreadable bytes fail after the old image was already removed; several old images fail with nothing changed |
| ImageServices.ImageUploadService.SaveProfileImage | instaclone_back/src/main/java/com/example/instaclone/services/ImageUploadService.java:52-60 | puts the bytes under the user's profile key and appends a record pointing at it, which becomes the user's only profile image; unreadable bytes change nothing |
| ImageServices.ImageUploadService.UploadImageToPost | instaclone_back/src/main/java/com/example/instaclone/services/ImageUploadService.java:71-91 | succeeds exactly when the principal owns the post and the bytes are readable; the record is appended to the post's images and no profile image changes; a post's second image makes later single-image reads fail; errors change nothing |
| ImageServices.ImageUploadService.GetImageToUser | instaclone_back/src/main/java/com/example/instaclone/services/ImageUploadService.java:93-103 | the principal's one profile record with the stored bytes attached; no record gives `ImageNotFoundException` with the source's message, several give `IncorrectResultSizeDataAccessException`, and a missing blob gives `NoSuchKeyException` |
| ImageServices.ImageUploadService.GetProfileImageToPost | instaclone_back/src/main/java/com/example/instaclone/services/ImageUploadService.java:105-113 | the given user's one profile record with the stored bytes attached; no record gives `ImageNotFoundException` with the source's message, several give `IncorrectResultSizeDataAccessException`, and a missing blob gives `NoSuchKeyException` |
| ImageServices.ImageUploadService.GetImageToPost | instaclone_back/src/main/java/com/example/instaclone/services/ImageUploadService.java:115-123 | the post's one image record with the stored bytes attached; no record gives `ImageNotFoundException` with the source's message, several give `IncorrectResultSizeDataAccessException`, and a missing blob gives `NoSuchKeyException` |
| Mappers.PostToPostDTO | instaclone_back/src/main/java/com/example/instaclone/mapper/PostMapper.java:10-21 | the view carries the post's id, title, caption, location, owner id and name, counter and likers |
| Mappers.PostToPostDTOKeepsLikes | instaclone_back/src/main/java/com/example/instaclone/mapper/PostMapper.java:16-17 | the view's like counter matches its likers exactly when the post's does |
| Mappers.PostToPostDTOIgnoresCreatedAt | instaclone_back/src/main/java/com/example/instaclone/mapper/PostMapper.java:10-21 | the post view does not depend on the creation time |
| Mappers.UserToUserDTO | instaclone_back/src/main/java/com/example/instaclone/mapper/UserMapper.java:10-18 | the view carries the user's id, first name (the `name` field), last name, username and bio |
| Mappers.UserToUserDTOHidesCredentials | instaclone_back/src/main/java/com/example/instaclone/mapper/UserMapper.java:10-18 | the user view depends on neither the email, nor the password hash, nor the roles |
| Mappers.CommentToCommentDTO | instaclone_back/src/main/java/com/example/instaclone/mapper/CommentMapper.java:10-16 | the view carries the comment's id, author name and text |
| Mappers.CommentToCommentDTOHidesContext | instaclone_back/src/main/java/com/example/instaclone/mapper/CommentMapper.java:10-16 | the comment view depends on neither the post, nor the author id, nor the time |
| UserServices.NewUser | instaclone_back/src/main/java/com/example/instaclone/services/UserService.java:29-35 | the new user has the request's email, first name, last name and username, the encoded password, the `ROLE_USER` role only, and no bio |
| UserServices.ApplyProfile | instaclone_back/src/main/java/com/example/instaclone/services/UserService.java:48-50 | the user takes the view's first name, last name and bio, and keeps every other field |
| UserServices.ApplyOwnProfile | instaclone_back/src/main/java/com/example/instaclone/services/UserService.java:46-53 | saving back a user's own view changes nothing |
| UserServices.ApplyProfileIdempotent | instaclone_back/src/main/java/com/example/instaclone/services/UserService.java:46-53 | applying the same view twice is the same as applying it once |
| UserServices.UserService.CreateUser | instaclone_back/src/main/java/com/example/instaclone/services/UserService.java:28-44 | fails with `UserExistException` and its message exactly when the email or username is taken, changing nothing; otherwise the user is stored and can then be found by username and by id |
| UserServices.UserService.UpdateUser | instaclone_back/src/main/java/com/example/instaclone/services/UserService.java:46-53 | an unknown principal fails and changes nothing; otherwise only the principal's row changes, to `ApplyProfile`, and `getCurrentUser` then returns it |
| UserServices.UserService.SaveProfile | instaclone_back/src/main/java/com/example/instaclone/services/UserService.java:48-52 | overwrites exactly the stored row of that user with the applied view |
| UserServices.UserService.GetCurrentUser | instaclone_back/src/main/java/com/example/instaclone/services/UserService.java:55-63 | found exactly when a stored user has the principal's name; otherwise `UsernameNotFoundException("Username not found")` |
| UserServices.UserService.GetUserById | instaclone_back/src/main/java/com/example/instaclone/services/UserService.java:65-67 | found exactly when a stored user has the id; otherwise `UsernameNotFoundException("User not found")` |
| UserServices.UserService.GetUserByUsername | instaclone_back/src/main/java/com/example/instaclone/services/UserService.java:69-71 | found exactly when a stored user has the username; otherwise `UsernameNotFoundException("User not found")` |
| Advice.HandlerClass | instaclone_back/src/main/java/com/example/instaclone/advice/GlobalExceptionHandler.java:18-51 | the chosen class has a handler and is the exception's class or one of its superclasses; no handler is chosen only when no such class has one |
| Advice.HandlerClassMostSpecific | instaclone_back/src/main/java/com/example/instaclone/advice/GlobalExceptionHandler.java:18-51 | whenever some superclass has a handler, one is chosen, and it is at least as deep as any handled superclass |
| Advice.OwnHandlerWins | instaclone_back/src/main/java/com/example/instaclone/advice/GlobalExceptionHandler.java:18-51 | an exception of a handled class is answered by its own handler, even when a superclass also has one |
| Advice.Handle | instaclone_back/src/main/java/com/example/instaclone/advice/GlobalExceptionHandler.java:18-51 | each handler method's status: 400 exactly for an existing user, 401 exactly for an authorization failure, 500 exactly for an I/O failure, and 404 for the other four handled classes; the body is a `MessageResponse` exactly for authorization and comment-not-found failures, plain text otherwise, and carries the exception's message |
| Advice.Resolve | instaclone_back/src/main/java/com/example/instaclone/advice/GlobalExceptionHandler.java:18-51 | the response for a thrown exception: 400 for an existing user; 401 for an authorization failure; 500 for an I/O failure; 404 for every other runtime exception, whichever subclass it is; no handler for the rest |
| ChatControllers.GenerateTimeStamp | instaclone_back/src/main/java/com/example/instaclone/web/ChatController.java:75-95 | the timestamp holds exactly one `-`, placed right after the date part |
| ChatControllers.TimeStampParts | instaclone_back/src/main/java/com/example/instaclone/web/ChatController.java:79-94 | neither the date part nor the time part contains `-`, so the joining `-` is the only one |
| ChatControllers.TwoDigitsReadBack | instaclone_back/src/main/java/com/example/instaclone/web/ChatController.java:86-91 | the minutes always take two digits and read back as the minute |
| ChatControllers.TimeOfReadBack | instaclone_back/src/main/java/com/example/instaclone/web/ChatController.java:83-94 | the time part is an hour, `:`, and two minute digits; the hour reads back as the UTC hour plus two (2 to 25, with no wrap), and the minutes as the minute |
| ChatControllers.RouteChatDestination | instaclone_back/src/main/java/com/example/instaclone/web/ChatController.java:30 | a destination is routed exactly when it is `/app/chat/` followed by a non-empty `{to}` containing no `/`, and `{to}` is that remainder |
| ChatControllers.ChatController.ChatNamed | instaclone_back/src/main/java/com/example/instaclone/web/ChatController.java:53 | with unique names `findChatByName` cannot fail; it finds a chat exactly when one has the name, and that chat is stored under the name |
| ChatControllers.ChatController.CreateAndOrGetChat | instaclone_back/src/main/java/com/example/instaclone/web/ChatController.java:64-73 | afterwards the chat with the name exists and is returned; an existing chat leaves the table unchanged; otherwise one chat with no participant and a fresh id is appended, and names stay unique |
| ChatControllers.ChatController.SendMessage | instaclone_back/src/main/java/com/example/instaclone/web/ChatController.java:30-41 | the frame's sender and content, with the chat's id, a fresh id and the server timestamp, are appended to the chat's messages and published on `/topic/messages/{to}`; the chat is created when missing |
| ChatControllers.ChatController.SaveAndPublish | instaclone_back/src/main/java/com/example/instaclone/web/ChatController.java:34-39 | the saved message gets a fresh id, is the last of the chat's messages, and is what is published on the chat's topic |
| ChatControllers.ChatController.GetChats | instaclone_back/src/main/java/com/example/instaclone/web/ChatController.java:43-47 | exactly the stored chats whose participant text contains the user |
| ChatControllers.ChatController.GetMessages | instaclone_back/src/main/java/com/example/instaclone/web/ChatController.java:49-62 | no chat with the name gives nothing; otherwise the messages stored with that chat's id, in insertion order |
| ChatClient.ChannelName | instaclone_front/src/app/chat/chat.component.ts:97-101 | the channel is the nickname of the user with the higher id, then `&`, then the other nickname |
| ChatClient.ChannelNameSymmetric | instaclone_front/src/app/chat/chat.component.ts:97-101 | both users of a conversation compute the same channel name, whichever one opens the page |
| ChatClient.ClientAndServerAgree | instaclone_front/src/app/chat/chat.component.ts:112-125 | the server routes the page's send destination to `sendMessage` with `to` equal to the channel, and publishes on the topic the page subscribes to |
| ChatClient.SortByMsId | instaclone_front/src/app/chat/chat.component.ts:140 | afterwards the messages are in ascending id order and are a permutation of the input |
| ChatClient.InsertLast | instaclone_front/src/app/chat/chat.component.ts:140 | one sorting step extends the sorted prefix by one element and permutes the array |
| ChatClient.AscendingOrderUnique | instaclone_front/src/app/chat/chat.component.ts:140 | with distinct ids, the ascending order of a set of messages is unique, so the sorted list is determined by what was fetched |
| ChatClient.WhenWasItPublished | instaclone_front/src/app/chat/chat.component.ts:146-149 | the text before the first `-`, then ` at `, then the text after it; a timestamp with no `-` is shown whole after ` at ` |
| ChatClient.ServerTimeStampShown | instaclone_front/src/app/chat/chat.component.ts:146-149 | for a server-generated timestamp the page shows the date, ` at `, and the time |
| ChatClient.FormatImage | instaclone_front/src/app/chat/chat.component.ts:151-156 | a missing image stays missing; otherwise the result is the JPEG data-URL prefix followed by the image text |
| ChatClient.FormatImageReadBack | instaclone_front/src/app/chat/chat.component.ts:151-156 | the image text can be read back from the data URL |
| ChatClient.ChatComponent.LoadChat | instaclone_front/src/app/chat/chat.component.ts:137-144 | the page's messages become the fetched ones in ascending id order; nothing else changes |
| ChatClient.ChatComponent.ConnectToChat | instaclone_front/src/app/chat/chat.component.ts:91-120 | the channel is named from both users, the messages are loaded and sorted, the page is connected, and the channel's topic is subscribed |
| ChatClient.ChatComponent.SendMsg | instaclone_front/src/app/chat/chat.component.ts:122-135 | empty input sends nothing; otherwise exactly one frame goes to `/app/chat/{channel}` with this user, the placeholder timestamp and the input; the input is cleared either way |

## Left out

- CommentService, the controllers other than `ChatController`, security, JWT and request validation are not part of this model.
- `UserRepository.java`, `PostRepository.java`, the entity classes and the WebSocket configuration are not part of this model. Their queries, column constraints and the `/app` application prefix are modelled from how the services and the page use them.
- The older duplicate sources under the repository's top-level `src/main` are not part of this model; only `instaclone_back` and `instaclone_front` are.
- The object-store client, `compressBytes` and `decompressBytes` are left out. Blobs are stored and returned as they are, so compression does not show in any result.
- Transactions, concurrency and races between requests are left out. Each operation runs alone.
- `Instant.now()` and the server time zone: the clock is a parameter (the instant's text plus its UTC hour and minute).
- The password encoder is an arbitrary function parameter.
- ChatControllers.GenerateTimeStamp: the source adds two hours with no wrap past midnight and no date change. The model keeps this, so hours 24 and 25 can appear (`TimeOfReadBack` states the range).
- The STOMP connection, the HTTP calls and their callbacks on the page are left out. What the server answers arrives as a parameter, and sending is recorded as the frames pushed.
- PostServices.PostService.LikePost: the like counter is an unbounded integer. Java `Integer` overflow is not modelled, since it needs about two billion likers.
- Image file names are never null in the model. A null original file name would make the source's key contain "null".
- User and chat name matching is exact. Database collation and case-insensitive comparison are not modelled.
- Spring and JPA exception classes that have no handler are collapsed to `RuntimeException` (with `IOException` under `Exception`). Only the hierarchy depth that decides handler choice is kept.
- Repositories.SingleResult: the message of `IncorrectResultSizeDataAccessException` is a fixed stand-in. Only its class is stated.
- `IOException` from reading an upload's bytes carries no message in the model (`None`); the source's text comes from the servlet container.
- ImageServices.ImageUploadService.GetImageToUser: the source sets the bytes on a managed JPA entity, which could later be flushed to the database. The model returns a copy with the bytes attached and leaves the stored record unchanged.
- `uploadImageToPost` filters `user.getPosts()`. The model reads the user's posts from the post table, since the user entity's post list is the same relation.
- Spring's unwrapping of exception causes before handler lookup is not modelled. Failures reach the handler as thrown.
- ChatControllers.ChatController.SendMessage: the model covers frames without an `ms_id`, as the page sends them. A frame carrying an `ms_id` would reach `save` with that id and overwrite the stored message (a JPA merge), or fail when no such row exists; that path is not modelled. The client's timestamp is replaced by the server's.
- ChatClient.ClientAndServerAgree: it holds only when neither nickname contains `/`. A `/` in a username would make the destination fail to match `/chat/{to}`, and usernames are not checked for it.
- ChatClient.ChatComponent.ConnectToChat: the subscription callback runs `loadChat` again, and scrolls down, each time a message is published. The model does not run the callback; each such reload is a further `LoadChat` call with the server's new answer.
- ChatClient.ChatComponent.SendMsg: requires the page to be connected. The page marks itself connected when its view is initialised, before the STOMP connect callback has run; a send in that window throws and leaves the input uncleared, and is not modelled.
- Repositories.MessageRepository.FindAllByChat: the query has no `ORDER BY`, so the database does not fix the order of its rows. The model returns them in insertion order, and so do `GetMessages` and `SaveAndPublish` (the saved message is last). The page re-sorts by id, so nothing it shows depends on this.
- Ids are non-negative in the model. A negative `Long` id in a request behaves as an absent one: the source takes the not-found path, with the negative number in the message.
- ChatClient.SortByMsId: the page's comparator never returns 0, so the order among messages with equal ids is unspecified. The model proves only that ids ascend, and `AscendingOrderUnique` needs distinct ids.
- ChatClient.ChatComponent.SendMsg: the form control's value is a string in the model. A null value (which the page never sets) is not modelled.
- The mappers only read the entity. This holds by construction, since entities are values in the model.
