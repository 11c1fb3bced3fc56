/** components/feed/ShareModal.tsx: the link to a post and the share URL of each platform.
    `window.location` is a parameter and `encodeURIComponent` an opaque function parameter. */
module ShareModal {
  import opened Types
  import opened Strings

  /** The parts of `window.location` the modal reads. */
  datatype Location = Location(origin: string, pathname: string)

  const PostQuery: string := "?post="

  /** `postUrl`: the current page's address with the post id as the `post` query parameter. */
  function PostUrl(loc: Location, postId: string): (r: string)
    ensures |r| == |loc.origin| + |loc.pathname| + |PostQuery| + |postId|
    ensures r[..|loc.origin| + |loc.pathname|] == loc.origin + loc.pathname
    ensures r[|loc.origin| + |loc.pathname|..] == PostQuery + postId
  {
    loc.origin + loc.pathname + PostQuery + postId
  }

  /** FeedView reads the id back from the `post` parameter: it is what follows "?post=". */
  lemma PostIdRecoverable(loc: Location, id1: string, id2: string)
    requires PostUrl(loc, id1) == PostUrl(loc, id2)
    ensures id1 == id2
  {
    var n := |loc.origin| + |loc.pathname| + |PostQuery|;
    assert PostUrl(loc, id1)[n..] == id1;
    assert PostUrl(loc, id2)[n..] == id2;
  }

  const ShareTextLength: nat := 100

  /** `content.substring(0, 100)`: the first 100 characters, or all of a shorter text. */
  function ShareText(content: string): (r: string)
    ensures |r| <= ShareTextLength && r <= content
    ensures |content| <= ShareTextLength ==> r == content
    ensures |content| > ShareTextLength ==> |r| == ShareTextLength
  {
    if |content| <= ShareTextLength then content else content[..ShareTextLength]
  }

  const Platforms: seq<string> := ["whatsapp", "facebook", "twitter", "linkedin", "telegram", "email"]

  /** The fixed start of each platform's share URL, before the first encoded value. */
  const WhatsAppEndpoint: string := "https://wa.me/?text="
  const FacebookEndpoint: string := "https://www.facebook.com/sharer/sharer.php?u="
  const TwitterEndpoint: string := "https://twitter.com/intent/tweet?url="
  const LinkedInEndpoint: string := "https://www.linkedin.com/sharing/share-offsite/?url="
  const TelegramEndpoint: string := "https://t.me/share/url?url="
  const EmailEndpoint: string := "mailto:?subject="

  function Endpoint(platform: string): string {
    if platform == "whatsapp" then WhatsAppEndpoint
    else if platform == "facebook" then FacebookEndpoint
    else if platform == "twitter" then TwitterEndpoint
    else if platform == "linkedin" then LinkedInEndpoint
    else if platform == "telegram" then TelegramEndpoint
    else EmailEndpoint
  }

  /** The `switch` of handleShare on already encoded values: each platform's fixed template filled
      with the post URL, the text and the title; "" for an unknown platform. */
  function Template(platform: string, url: string, text: string, title: string): (r: string)
    ensures platform !in Platforms ==> r == ""
    ensures platform in Platforms ==> |r| > 0 && Endpoint(platform) <= r
  {
    if platform == "whatsapp" then WhatsAppEndpoint + title + "%20" + url
    else if platform == "facebook" then FacebookEndpoint + url
    else if platform == "twitter" then TwitterEndpoint + url + "&text=" + text
    else if platform == "linkedin" then LinkedInEndpoint + url
    else if platform == "telegram" then TelegramEndpoint + url + "&text=" + text
    else if platform == "email" then EmailEndpoint + title + "&body=" + text + "%20" + url
    else ""
  }

  /** Every platform's template carries the URL. */
  lemma TemplateCarriesUrl(platform: string, url: string, text: string, title: string)
    requires platform in Platforms
    ensures Contains(Template(platform, url, text, title), url)
  {
    var r := Template(platform, url, text, title);
    if platform == "whatsapp" {
      ContainsInMiddle(WhatsAppEndpoint + title + "%20", url, "");
      assert r == WhatsAppEndpoint + title + "%20" + url + "";
    } else if platform == "facebook" {
      ContainsInMiddle(FacebookEndpoint, url, "");
      assert r == FacebookEndpoint + url + "";
    } else if platform == "twitter" {
      ContainsInMiddle(TwitterEndpoint, url, "&text=" + text);
      assert r == TwitterEndpoint + url + ("&text=" + text);
    } else if platform == "linkedin" {
      ContainsInMiddle(LinkedInEndpoint, url, "");
      assert r == LinkedInEndpoint + url + "";
    } else if platform == "telegram" {
      ContainsInMiddle(TelegramEndpoint, url, "&text=" + text);
      assert r == TelegramEndpoint + url + ("&text=" + text);
    } else {
      ContainsInMiddle(EmailEndpoint + title + "&body=" + text + "%20", url, "");
      assert r == EmailEndpoint + title + "&body=" + text + "%20" + url + "";
    }
  }

  /** The Twitter, Telegram and email templates carry the text. */
  lemma TemplateCarriesText(platform: string, url: string, text: string, title: string)
    requires platform == "twitter" || platform == "telegram" || platform == "email"
    ensures Contains(Template(platform, url, text, title), text)
  {
    var r := Template(platform, url, text, title);
    if platform == "twitter" {
      ContainsInMiddle(TwitterEndpoint + url + "&text=", text, "");
      assert r == TwitterEndpoint + url + "&text=" + text + "";
    } else if platform == "telegram" {
      ContainsInMiddle(TelegramEndpoint + url + "&text=", text, "");
      assert r == TelegramEndpoint + url + "&text=" + text + "";
    } else {
      ContainsInMiddle(EmailEndpoint + title + "&body=", text, "%20" + url);
      assert r == EmailEndpoint + title + "&body=" + text + ("%20" + url);
    }
  }

  /** The WhatsApp and email templates carry the title, right after the platform's endpoint. */
  lemma TemplateCarriesTitle(platform: string, url: string, text: string, title: string)
    requires platform == "whatsapp" || platform == "email"
    ensures Endpoint(platform) + title <= Template(platform, url, text, title)
    ensures Contains(Template(platform, url, text, title), title)
  {
    var r := Template(platform, url, text, title);
    if platform == "whatsapp" {
      ContainsInMiddle(WhatsAppEndpoint, title, "%20" + url);
      assert r == WhatsAppEndpoint + title + ("%20" + url);
    } else {
      ContainsInMiddle(EmailEndpoint, title, "&body=" + text + "%20" + url);
      assert r == EmailEndpoint + title + ("&body=" + text + "%20" + url);
    }
  }

  /** handleShare's URL: the template filled with the encoded post URL, the encoded first 100
      characters of the content and the encoded title "Post by " and the author. */
  function ShareUrl(platform: string, post: Post, loc: Location, encode: string -> string): (r: string)
    ensures platform !in Platforms ==> r == ""
    ensures platform in Platforms ==> |r| > 0 && Endpoint(platform) <= r
  {
    Template(platform, encode(PostUrl(loc, post.id)), encode(ShareText(post.content)), encode("Post by " + post.authorName))
  }

  /** Every platform's URL carries the encoded post URL. */
  lemma ShareUrlCarriesPostUrl(platform: string, post: Post, loc: Location, encode: string -> string)
    requires platform in Platforms
    ensures Contains(ShareUrl(platform, post, loc, encode), encode(PostUrl(loc, post.id)))
  {
    TemplateCarriesUrl(platform, encode(PostUrl(loc, post.id)), encode(ShareText(post.content)), encode("Post by " + post.authorName));
  }

  /** Twitter, Telegram and email also carry the encoded text of the post. */
  lemma ShareUrlCarriesText(platform: string, post: Post, loc: Location, encode: string -> string)
    requires platform == "twitter" || platform == "telegram" || platform == "email"
    ensures Contains(ShareUrl(platform, post, loc, encode), encode(ShareText(post.content)))
  {
    TemplateCarriesText(platform, encode(PostUrl(loc, post.id)), encode(ShareText(post.content)), encode("Post by " + post.authorName));
  }

  /** WhatsApp and email also carry the encoded title, right after the endpoint. */
  lemma ShareUrlCarriesTitle(platform: string, post: Post, loc: Location, encode: string -> string)
    requires platform == "whatsapp" || platform == "email"
    ensures Endpoint(platform) + encode("Post by " + post.authorName) <= ShareUrl(platform, post, loc, encode)
    ensures Contains(ShareUrl(platform, post, loc, encode), encode("Post by " + post.authorName))
  {
    TemplateCarriesTitle(platform, encode(PostUrl(loc, post.id)), encode(ShareText(post.content)), encode("Post by " + post.authorName));
  }

  /** What one handleShare call does: the URL a window is opened on, if any, and whether
      onClose was called. */
  datatype ShareEffect = ShareEffect(windowUrl: Option<string>, closeCalled: bool)

  /** handleShare: a window opens on the share URL only for a known platform, and the modal is
      asked to close in every case. */
  function HandleShare(platform: string, post: Post, loc: Location, encode: string -> string): (e: ShareEffect)
    ensures e.closeCalled
    ensures e.windowUrl.Some? <==> platform in Platforms
    ensures e.windowUrl.Some? ==> e.windowUrl.value == ShareUrl(platform, post, loc, encode)
  {
    var shareUrl := ShareUrl(platform, post, loc, encode);
    ShareEffect(if shareUrl != "" then Some(shareUrl) else None, true)
  }

  /** The rendered modal, reduced to the link it shows; nothing when it is closed. */
  function View(isOpen: bool, post: Post, loc: Location): (v: Option<string>)
    ensures v.None? <==> !isOpen
    ensures v.Some? ==> v.value == PostUrl(loc, post.id)
  {
    if !isOpen then None else Some(PostUrl(loc, post.id))
  }
}
