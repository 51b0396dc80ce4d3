/** The related-posts strip under a blog post: which of the posts it is
    given it shows, and how each card reads. The rendered titles and
    descriptions are the `asText` results carried by the documents. */
module RelatedPostsView {
  import opened Js
  import opened Seqs
  import opened BlogData

  const CardImage := "/BlogPage.jpg"
  const MaxCards := 3

  datatype Card = Card(key: string, href: string, image: string, title: string, description: Option<string>)

  /** `post.uid !== currentPostUID` */
  function NotCurrent(currentUid: string): BlogDoc -> bool {
    (post: BlogDoc) => post.uid != currentUid
  }

  /** One card: the description paragraph is rendered only when the
      description is not empty. */
  function ToCard(post: BlogDoc): Card {
    Card(post.id, "/blog/" + post.uid, OrElse(OptText(post.imageUrl), CardImage), OrElse(post.titleText, ""),
         if post.descriptionText != "" then Some(post.descriptionText) else None)
  }

  /** `posts.filter(...).slice(0, 3)` */
  function ShownPosts(posts: seq<BlogDoc>, currentUid: string): seq<BlogDoc> {
    Take(Filter(posts, NotCurrent(currentUid)), MaxCards)
  }

  /** `RelatedPosts({ posts, currentPostUID })`: nothing for missing or
      empty posts, else the cards (possibly none). */
  function RelatedPosts(posts: Option<seq<BlogDoc>>, currentUid: string): (r: Option<seq<Card>>)
    ensures r.None? <==> posts.None? || posts.value == []
    ensures r.Some? ==> |r.value| == |ShownPosts(posts.value, currentUid)|
    ensures r.Some? ==> forall i :: 0 <= i < |r.value| ==> r.value[i] == ToCard(ShownPosts(posts.value, currentUid)[i])
    ensures r.Some? ==> |r.value| <= MaxCards
    ensures r.Some? ==> forall i :: 0 <= i < |r.value| ==> r.value[i].href != "/blog/" + currentUid
  {
    if posts.None? || posts.value == [] then None
    else
      ShownPostsSelection(posts.value, currentUid);
      CardsAvoid(ShownPosts(posts.value, currentUid), currentUid);
      Some(Map(ShownPosts(posts.value, currentUid), ToCard))
  }

  /** Posts other than the current one give cards that do not link to it. */
  lemma CardsAvoid(s: seq<BlogDoc>, currentUid: string)
    requires forall i :: 0 <= i < |s| ==> s[i].uid != currentUid
    ensures forall i :: 0 <= i < |s| ==> ToCard(s[i]).href != "/blog/" + currentUid
  {
    forall i | 0 <= i < |s|
      ensures ToCard(s[i]).href != "/blog/" + currentUid
    {
      if ToCard(s[i]).href == "/blog/" + currentUid {
        HrefInjective(s[i].uid, currentUid);
      }
    }
  }

  lemma HrefInjective(a: string, b: string)
    requires "/blog/" + a == "/blog/" + b
    ensures a == b
  {
    assert ("/blog/" + a)[6..] == a;
    assert ("/blog/" + b)[6..] == b;
  }

  /** At most three posts are shown, never the current one, in the order
      given, and a post other than the current one is left out only when
      three others come before it. */
  lemma ShownPostsSelection(posts: seq<BlogDoc>, currentUid: string)
    ensures var s := ShownPosts(posts, currentUid);
      && |s| <= MaxCards
      && (forall i :: 0 <= i < |s| ==> s[i].uid != currentUid)
      && IsSubsequence(s, posts)
      && (forall p :: p in posts && p.uid != currentUid && p !in s ==> |s| == MaxCards)
  {
    var f := Filter(posts, NotCurrent(currentUid));
    var s := ShownPosts(posts, currentUid);
    TakeLength(f, MaxCards);
    TakeOfFilterIsSubsequence(posts, NotCurrent(currentUid), MaxCards);
    forall i | 0 <= i < |s|
      ensures s[i].uid != currentUid
    {
      assert s[i] == f[i];
      assert NotCurrent(currentUid)(f[i]);
    }
    forall p | p in posts && p.uid != currentUid && p !in s
      ensures |s| == MaxCards
    {
      var j :| 0 <= j < |posts| && posts[j] == p;
      assert NotCurrent(currentUid)(posts[j]);
      assert p in f;
    }
  }

  /** The card falls back to "/BlogPage.jpg", not to the "/BlogPage.png" of
      the post transform, so the two disagree exactly for posts without an
      image. */
  lemma CardImageFallback(post: BlogDoc)
    ensures OptText(post.imageUrl) == "" ==> ToCard(post).image == CardImage && ToCard(post).image != TransformBlogPost(post).image
    ensures OptText(post.imageUrl) != "" ==> ToCard(post).image == post.imageUrl.value == TransformBlogPost(post).image
    ensures ToCard(post).description.None? <==> post.descriptionText == ""
    ensures ToCard(post).description.Some? ==> ToCard(post).description.value == post.descriptionText
  {
  }

  /** For a current post without tags, the strip shows the cards of the
      site's own related-post selection with a limit of three. */
  lemma AgreesWithRelatedSelection(posts: seq<BlogDoc>, current: Option<BlogDoc>, currentUid: string)
    requires posts != [] && CurrentTags(current) == []
    ensures RelatedPosts(Some(posts), currentUid)
         == Some(Map(RelatedDocs(currentUid, Some(MaxCards), Some(current), Some(posts)), ToCard))
  {
    RelatedWithoutTags(currentUid, Some(MaxCards), current, posts);
    FilterSame(posts, (doc: BlogDoc) => doc.uid != currentUid, NotCurrent(currentUid));
  }
}
