/** The record shapes of types.ts, plus the Option/Result wrappers the model uses for
    absent values, thrown exceptions and failed backend calls. */
module Types {

  datatype Option<+T> = None | Some(value: T) {
    function GetOr(default: T): T {
      match this
      case Some(v) => v
      case None => default
    }
  }

  datatype Result<+R, +E> = Success(value: R) | Failure(error: E)

  datatype Outcome<+E> = Pass | Fail(error: E)

  datatype Role = UserRole | AdminRole

  /** types.ts `User`; `followers` is optional there. */
  datatype User = User(
    id: string,
    name: string,
    email: string,
    photoURL: string,
    bio: string,
    role: Role,
    goals: seq<string>,
    following: seq<string>,
    followers: Option<seq<string>>)

  datatype MediaType = Image | Video

  /** types.ts `Post`; `createdAt` is not modelled. */
  datatype Post = Post(
    id: string,
    authorId: string,
    authorName: string,
    authorPhotoURL: string,
    content: string,
    mediaURL: Option<string>,
    mediaType: Option<MediaType>,
    likes: seq<string>,
    likesCount: int,
    commentsCount: int,
    sharesCount: int)

  /** types.ts `Comment`; `createdAt` is not modelled. */
  datatype Comment = Comment(
    id: string,
    postId: string,
    authorId: string,
    authorName: string,
    authorPhotoURL: string,
    text: string)

  /** types.ts `Message`; `timestamp` is not modelled. */
  datatype Message = Message(id: string, senderId: string, text: string)

  /** types.ts `Chat`: the participants are a pair there, any sequence here. */
  datatype Chat = Chat(id: string, participants: seq<User>, messages: seq<Message>)

  datatype Page = FeedPage | ChatPage | ProfilePage | AdminPage | UsersPage | SettingsPage
}
