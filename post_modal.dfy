/** components/feed/PostModal.tsx: carousel detection, slide navigation, the aspect-ratio class,
    and the like and comment handlers with the state they update. Backend calls are outcome
    parameters; JSON.parse is a parse function parameter. */
module PostModal {
  import opened Types
  import opened Lists
  import opened Strings
  import Cloudinary

  // ---------------------------------------------------------------------------------------
  // Carousel detection and navigation

  /** The `urls` of the carousel the media URL encodes, or None for a single image or video:
      an absent or empty URL, a parse failure, or a value without an array `urls`. */
  function CarouselOf(mediaURL: Option<string>, parse: string -> Option<Cloudinary.Json>): (r: Option<seq<Cloudinary.Json>>)
    ensures r.Some? <==> mediaURL.Some? && mediaURL.value != "" && Cloudinary.CarouselUrls(parse(mediaURL.value)).Some?
    ensures r.Some? ==> r == Cloudinary.CarouselUrls(parse(mediaURL.value))
  {
    if mediaURL.Some? && mediaURL.value != "" then Cloudinary.CarouselUrls(parse(mediaURL.value)) else None
  }

  /** handleNextSlide's update: the last slide wraps to the first. */
  function NextSlide(prev: int, n: nat): int {
    if prev == n - 1 then 0 else prev + 1
  }

  /** handlePrevSlide's update: the first slide wraps to the last. */
  function PrevSlide(prev: int, n: nat): int {
    if prev == 0 then n - 1 else prev - 1
  }

  /** Both updates are steps modulo the number of slides and stay in range. */
  lemma SlideStepsAreModular(i: int, n: nat)
    requires n >= 1 && 0 <= i < n
    ensures NextSlide(i, n) == (i + 1) % n && 0 <= NextSlide(i, n) < n
    ensures PrevSlide(i, n) == (i - 1 + n) % n && 0 <= PrevSlide(i, n) < n
  {
    if i == n - 1 {
      assert (i + 1) % n == n % n == 0;
    } else {
      assert (i + 1) % n == i + 1;
    }
    if i == 0 {
      assert (i - 1 + n) % n == n - 1;
    } else {
      assert (i - 1 + n) % n == (i - 1 + n) - n;
    }
  }

  /** Next then previous, or previous then next, returns to the same slide. */
  lemma SlideStepsAreInverse(i: int, n: nat)
    requires n >= 1 && 0 <= i < n
    ensures PrevSlide(NextSlide(i, n), n) == i
    ensures NextSlide(PrevSlide(i, n), n) == i
  {
  }

  /** getAspectRatioClass: three ratios have their own class, every other string is auto. */
  function AspectRatioClass(ratio: string): (c: string)
    ensures ratio == "1:1" <==> c == "aspect-square"
    ensures ratio == "16:9" <==> c == "aspect-video"
    ensures ratio == "9:16" <==> c == "aspect-[9/16]"
    ensures ratio !in {"1:1", "16:9", "9:16"} <==> c == "aspect-auto"
  {
    if ratio == "1:1" then "aspect-square"
    else if ratio == "16:9" then "aspect-video"
    else if ratio == "9:16" then "aspect-[9/16]"
    else "aspect-auto"
  }

  // ---------------------------------------------------------------------------------------
  // The post reported to onUpdate

  /** The post after a like toggle by `userId`: an unlike drops every copy of the id and counts one
      less, a like appends the id and counts one more; everything else is kept. */
  function LikeUpdate(post: Post, userId: string, wasLiked: bool, count: int): (p: Post)
    ensures p.likesCount == (if wasLiked then count - 1 else count + 1)
    ensures wasLiked ==> userId !in p.likes && forall x :: x != userId ==> (x in p.likes <==> x in post.likes)
    ensures !wasLiked ==> p.likes == post.likes + [userId]
    ensures p.(likes := post.likes, likesCount := post.likesCount) == post
  {
    post.(likes := if wasLiked then RemoveAll(post.likes, userId) else post.likes + [userId],
          likesCount := if wasLiked then count - 1 else count + 1)
  }

  /** A like followed by an unlike, by a user not among the likes, restores the post with the
      count it started from. */
  lemma LikeThenUnlike(post: Post, userId: string, count: int)
    requires userId !in post.likes
    ensures var liked := LikeUpdate(post, userId, false, count);
      LikeUpdate(liked, userId, true, liked.likesCount) == post.(likesCount := count)
  {
    AppendThenRemoveAll(post.likes, userId);
  }

  /** The post after a comment: one more comment, everything else kept. */
  function CommentUpdate(post: Post): (p: Post)
    ensures p.commentsCount == post.commentsCount + 1
    ensures p.(commentsCount := post.commentsCount) == post
  {
    post.(commentsCount := post.commentsCount + 1)
  }

  // ---------------------------------------------------------------------------------------
  // The component

  class PostModalState {
    const post: Post
    const user: Option<User>
    /** `carouselData`, computed from `post.mediaURL` at render. */
    const carousel: Option<seq<Cloudinary.Json>>

    var isLiked: bool
    var likesCount: int
    var comments: seq<Comment>
    var commentText: string
    var loadingComments: bool
    var currentSlide: int

    /** The slide index is a valid index of a non-empty carousel. */
    predicate SlideInRange()
      reads this
    {
      carousel.Some? && |carousel.value| >= 1 ==> 0 <= currentSlide < |carousel.value|
    }

    /** The initial state: liked iff the user is among the likes, the post's count, no comments
      loaded, an empty input and the first slide. */
    constructor(post: Post, user: Option<User>, parse: string -> Option<Cloudinary.Json>)
      ensures this.post == post && this.user == user
      ensures carousel == CarouselOf(post.mediaURL, parse)
      ensures isLiked == (user.Some? && user.value.id in post.likes)
      ensures likesCount == post.likesCount
      ensures comments == [] && commentText == "" && !loadingComments && currentSlide == 0
      ensures SlideInRange()
    {
      this.post := post;
      this.user := user;
      carousel := CarouselOf(post.mediaURL, parse);
      isLiked := user.Some? && user.value.id in post.likes;
      likesCount := post.likesCount;
      comments := [];
      commentText := "";
      loadingComments := false;
      currentSlide := 0;
    }

    /** loadComments: the fetched comments replace the list; on a failed fetch it is kept; the
        loading flag ends false either way. */
    method LoadComments(fetched: Option<seq<Comment>>)
      modifies this
      ensures comments == (if fetched.Some? then fetched.value else old(comments))
      ensures !loadingComments
      ensures isLiked == old(isLiked) && likesCount == old(likesCount)
      ensures commentText == old(commentText) && currentSlide == old(currentSlide)
    {
      loadingComments := true;
      if fetched.Some? {
        comments := fetched.value;
      }
      loadingComments := false;
    }

    /** handleLike: without a user, or when the toggle fails, nothing changes and nothing is
        reported; otherwise the like flips, the count moves by one and the updated post is
        reported. */
    method HandleLike(toggleOk: bool) returns (update: Option<Post>)
      modifies this
      ensures user.None? || !toggleOk ==>
        update.None? && isLiked == old(isLiked) && likesCount == old(likesCount)
      ensures user.Some? && toggleOk ==>
        isLiked == !old(isLiked) &&
        likesCount == (if old(isLiked) then old(likesCount) - 1 else old(likesCount) + 1) &&
        update == Some(LikeUpdate(post, user.value.id, old(isLiked), old(likesCount)))
      ensures comments == old(comments) && commentText == old(commentText)
      ensures loadingComments == old(loadingComments) && currentSlide == old(currentSlide)
    {
      update := None;
      if user.None? {
        return;
      }
      if toggleOk {
        var wasLiked := isLiked;
        var count := likesCount;
        isLiked := !wasLiked;
        likesCount := if wasLiked then count - 1 else count + 1;
        update := Some(LikeUpdate(post, user.value.id, wasLiked, count));
      }
    }

    /** handleAddComment: without a user or with a blank input nothing is sent; otherwise the
        untrimmed text is sent and, when the backend returns the comment, it is appended, the
        input is cleared and the post with one more comment is reported. */
    method HandleAddComment(added: Option<Comment>) returns (sent: Option<string>, update: Option<Post>)
      modifies this
      ensures sent.Some? <==> user.Some? && !IsBlank(old(commentText))
      ensures sent.Some? ==> sent.value == old(commentText)
      ensures sent.Some? && added.Some? ==>
        comments == old(comments) + [added.value] && commentText == "" && update == Some(CommentUpdate(post))
      ensures sent.None? || added.None? ==>
        comments == old(comments) && commentText == old(commentText) && update.None?
      ensures isLiked == old(isLiked) && likesCount == old(likesCount)
      ensures loadingComments == old(loadingComments) && currentSlide == old(currentSlide)
    {
      sent := None;
      update := None;
      if user.None? || IsBlank(commentText) {
        return;
      }
      sent := Some(commentText);
      if added.Some? {
        comments := comments + [added.value];
        commentText := "";
        update := Some(CommentUpdate(post));
      }
    }

    /** handlePrevSlide: a step back with wrap-around on a carousel, nothing otherwise. */
    method HandlePrevSlide()
      modifies this
      requires SlideInRange()
      ensures SlideInRange()
      ensures carousel.Some? ==> currentSlide == PrevSlide(old(currentSlide), |carousel.value|)
      ensures carousel.None? ==> currentSlide == old(currentSlide)
      ensures isLiked == old(isLiked) && likesCount == old(likesCount)
      ensures comments == old(comments) && commentText == old(commentText) && loadingComments == old(loadingComments)
    {
      if carousel.Some? {
        if |carousel.value| >= 1 {
          SlideStepsAreModular(currentSlide, |carousel.value|);
        }
        currentSlide := PrevSlide(currentSlide, |carousel.value|);
      }
    }

    /** handleNextSlide: a step forward with wrap-around on a carousel, nothing otherwise. */
    method HandleNextSlide()
      modifies this
      requires SlideInRange()
      ensures SlideInRange()
      ensures carousel.Some? ==> currentSlide == NextSlide(old(currentSlide), |carousel.value|)
      ensures carousel.None? ==> currentSlide == old(currentSlide)
      ensures isLiked == old(isLiked) && likesCount == old(likesCount)
      ensures comments == old(comments) && commentText == old(commentText) && loadingComments == old(loadingComments)
    {
      if carousel.Some? {
        if |carousel.value| >= 1 {
          SlideStepsAreModular(currentSlide, |carousel.value|);
        }
        currentSlide := NextSlide(currentSlide, |carousel.value|);
      }
    }
  }
}
