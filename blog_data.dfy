/** Blog posts as the site reads them from the CMS: the field defaults of
    `transformBlogPost` and the selection rule of `getRelatedBlogPosts`.

    A document carries the rendered text of its rich-text fields (`asText`,
    `asHTML`) as strings, and its publication date already formatted: date
    formatting is not modelled. A fetch is `None` when it throws. */
module BlogData {
  import opened Js
  import opened Seqs

  datatype BlogDoc = BlogDoc(
    id: string,
    uid: string,
    tags: Option<seq<string>>,
    imageUrl: Option<string>,      // `data.image?.url`
    imageAlt: Option<string>,      // `data.image?.alt`
    publishedOn: Option<string>,   // `first_publication_date` when set, as formatted
    titleText: string,             // `asText(data.title)`
    descriptionText: string,       // `asText(data.description)`
    contentHtml: string,           // `asHTML(data.content)`
    authorText: string)            // `asText(data.author_name)`

  datatype BlogPost = BlogPost(
    id: string,
    slug: string,
    image: string,
    category: string,
    tags: seq<string>,
    date: string,
    title: string,
    subtitle: Option<string>,
    description: Option<string>,
    alt: string,
    content: string,
    author: Option<string>)

  const DefaultImage := "/BlogPage.png"
  const DefaultCategory := "Blog"
  const DefaultLimit := 3

  /** `doc.tags || []` */
  function TagsOf(doc: BlogDoc): seq<string> {
    if doc.tags.Some? then doc.tags.value else []
  }

  function OptText(o: Option<string>): string {
    if o.Some? then o.value else ""
  }

  /** `s || undefined` */
  function OrUndefined(s: string): (r: Option<string>)
    ensures r.None? <==> s == ""
    ensures r.Some? ==> r.value == s
  {
    if s != "" then Some(s) else None
  }

  /** `transformBlogPost(doc)` */
  function TransformBlogPost(doc: BlogDoc): (p: BlogPost)
    ensures p.id == doc.id && p.slug == doc.uid && p.tags == TagsOf(doc)
    ensures p.image != "" && p.category == DefaultCategory && p.subtitle.None?
  {
    BlogPost(
      doc.id,
      doc.uid,
      OrElse(OptText(doc.imageUrl), DefaultImage),
      DefaultCategory,
      TagsOf(doc),
      if doc.publishedOn.Some? then doc.publishedOn.value else "",
      OrElse(doc.titleText, ""),
      None,
      OrUndefined(doc.descriptionText),
      OrElse(OrElse(OptText(doc.imageAlt), doc.titleText), ""),
      OrElse(doc.contentHtml, ""),
      OrUndefined(doc.authorText))
  }

  /** The defaults of a transformed post: the placeholder image, the fixed
      category, no tags and no subtitle when the document has none, and the
      alt text falling back to the title. */
  lemma TransformBlogDefaults(doc: BlogDoc)
    ensures var p := TransformBlogPost(doc);
      && p.slug == doc.uid
      && (OptText(doc.imageUrl) == "" ==> p.image == DefaultImage)
      && (OptText(doc.imageUrl) != "" ==> p.image == doc.imageUrl.value)
      && p.category == "Blog"
      && (doc.tags.None? ==> p.tags == [])
      && p.subtitle.None?
      && (p.description.None? <==> doc.descriptionText == "")
      && (p.author.None? <==> doc.authorText == "")
      && (OptText(doc.imageAlt) == "" ==> p.alt == doc.titleText)
      && (doc.publishedOn.None? ==> p.date == "")
  {
  }

  /** `getAllBlogPosts()` */
  function AllBlogPosts(response: Option<seq<BlogDoc>>): (r: seq<BlogPost>)
    ensures response.None? ==> r == []
    ensures response.Some? ==> |r| == |response.value|
    ensures response.Some? ==> forall i :: 0 <= i < |r| ==> r[i] == TransformBlogPost(response.value[i])
    ensures response.Some? ==> forall i :: 0 <= i < |r| ==>
      r[i].id == response.value[i].id && r[i].slug == response.value[i].uid && r[i].category == DefaultCategory
  {
    if response.None? then [] else Map(response.value, TransformBlogPost)
  }

  /** `getBlogPostBySlug(slug)`: `fetched` is `None` when the fetch throws,
      `Some(None)` when there is no such document. */
  function BlogPostBySlug(fetched: Option<Option<BlogDoc>>): (r: Option<BlogPost>)
    ensures r.Some? <==> fetched.Some? && fetched.value.Some?
    ensures r.Some? ==> r.value == TransformBlogPost(fetched.value.value)
    ensures r.Some? ==> r.value.id == fetched.value.value.id && r.value.slug == fetched.value.value.uid
  {
    if fetched.Some? && fetched.value.Some? then Some(TransformBlogPost(fetched.value.value)) else None
  }

  // ---------------------------------------------------------------------
  // Related posts.

  /** Some tag of `tags` is one of `wanted`. */
  predicate SharesTag(tags: seq<string>, wanted: seq<string>) {
    exists i :: 0 <= i < |tags| && tags[i] in wanted
  }

  /** The filter of `getRelatedBlogPosts`. With no current tags, every post
      but the current one qualifies; otherwise it must also share a tag. */
  function Related(currentSlug: string, currentTags: seq<string>): BlogDoc -> bool {
    (doc: BlogDoc) => doc.uid != currentSlug && (currentTags == [] || SharesTag(TagsOf(doc), currentTags))
  }

  /** `currentPost?.tags || []` */
  function CurrentTags(current: Option<BlogDoc>): seq<string> {
    if current.Some? then TagsOf(current.value) else []
  }

  /** `limit = 3` */
  function EffectiveLimit(limit: Option<int>): int {
    if limit.Some? then limit.value else DefaultLimit
  }

  /** The documents `getRelatedBlogPosts` keeps, before the transform.
      `current` is the fetched current post (`None` when the fetch throws,
      `Some(None)` when there is none) and `response` the list of all
      posts, newest first. */
  function RelatedDocs(currentSlug: string, limit: Option<int>,
                       current: Option<Option<BlogDoc>>, response: Option<seq<BlogDoc>>): (d: seq<BlogDoc>)
    ensures current.None? || response.None? ==> d == []
    ensures response.Some? ==> |d| <= |response.value|
    ensures current.Some? && response.Some? ==>
      forall i :: 0 <= i < |d| ==> d[i] in response.value && Related(currentSlug, CurrentTags(current.value))(d[i])
  {
    if current.None? || response.None? then []
    else Take(Filter(response.value, Related(currentSlug, CurrentTags(current.value))), EffectiveLimit(limit))
  }

  /** `getRelatedBlogPosts(currentSlug, limit)` */
  function RelatedBlogPosts(currentSlug: string, limit: Option<int>,
                            current: Option<Option<BlogDoc>>, response: Option<seq<BlogDoc>>): (r: seq<BlogPost>)
    ensures |r| == |RelatedDocs(currentSlug, limit, current, response)|
    ensures forall i :: 0 <= i < |r| ==> r[i] == TransformBlogPost(RelatedDocs(currentSlug, limit, current, response)[i])
    ensures forall i :: 0 <= i < |r| ==> r[i].slug != currentSlug
    ensures EffectiveLimit(limit) >= 0 ==> |r| <= EffectiveLimit(limit)
    ensures limit.None? ==> |r| <= DefaultLimit
  {
    RelatedExcludesCurrent(currentSlug, limit, current, response);
    Map(RelatedDocs(currentSlug, limit, current, response), TransformBlogPost)
  }

  /** The current document is never related to itself, and at most
      `limit` documents (3 by default) are kept. */
  lemma RelatedExcludesCurrent(currentSlug: string, limit: Option<int>,
                               current: Option<Option<BlogDoc>>, response: Option<seq<BlogDoc>>)
    ensures var d := RelatedDocs(currentSlug, limit, current, response);
      forall i :: 0 <= i < |d| ==> d[i].uid != currentSlug
    ensures EffectiveLimit(limit) >= 0 ==> |RelatedDocs(currentSlug, limit, current, response)| <= EffectiveLimit(limit)
    ensures limit.None? ==> |RelatedDocs(currentSlug, limit, current, response)| <= 3
  {
    var d := RelatedDocs(currentSlug, limit, current, response);
    if current.Some? && response.Some? {
      var f := Filter(response.value, Related(currentSlug, CurrentTags(current.value)));
      forall i | 0 <= i < |d|
        ensures d[i].uid != currentSlug
      {
        assert d[i] == f[i];
      }
      if EffectiveLimit(limit) >= 0 {
        TakeLength(f, EffectiveLimit(limit));
      }
    }
  }

  /** When the current post has tags, every related post shares one of
      them; there is no fallback to unrelated posts. */
  lemma RelatedShareTags(currentSlug: string, limit: Option<int>,
                         current: Option<Option<BlogDoc>>, response: Option<seq<BlogDoc>>)
    requires current.Some? && CurrentTags(current.value) != []
    ensures var d := RelatedDocs(currentSlug, limit, current, response);
      forall i :: 0 <= i < |d| ==> SharesTag(TagsOf(d[i]), CurrentTags(current.value))
  {
    var d := RelatedDocs(currentSlug, limit, current, response);
    if response.Some? {
      var f := Filter(response.value, Related(currentSlug, CurrentTags(current.value)));
      forall i | 0 <= i < |d|
        ensures SharesTag(TagsOf(d[i]), CurrentTags(current.value))
      {
        assert d[i] == f[i];
        assert Related(currentSlug, CurrentTags(current.value))(f[i]);
      }
    }
  }

  /** Without current tags the result is the first `limit` posts other than
      the current one, in the fetched order. */
  lemma RelatedWithoutTags(currentSlug: string, limit: Option<int>,
                           current: Option<BlogDoc>, docs: seq<BlogDoc>)
    requires CurrentTags(current) == []
    ensures RelatedDocs(currentSlug, limit, Some(current), Some(docs))
         == Take(Filter(docs, (doc: BlogDoc) => doc.uid != currentSlug), EffectiveLimit(limit))
  {
    FilterSame(docs, Related(currentSlug, []), (doc: BlogDoc) => doc.uid != currentSlug);
  }

  lemma {:induction false} FilterSame<T>(s: seq<T>, p: T -> bool, q: T -> bool)
    requires forall x :: p(x) == q(x)
    ensures Filter(s, p) == Filter(s, q)
  {
    if s != [] {
      FilterSame(s[1..], p, q);
    }
  }

  /** The related documents keep the fetched order: they are a
      subsequence of the fetched list. */
  lemma RelatedKeepsOrder(currentSlug: string, limit: Option<int>, current: Option<BlogDoc>, docs: seq<BlogDoc>)
    ensures IsSubsequence(RelatedDocs(currentSlug, limit, Some(current), Some(docs)), docs)
  {
    TakeOfFilterIsSubsequence(docs, Related(currentSlug, CurrentTags(current)), EffectiveLimit(limit));
  }

  /** When the limit is not reached, a post is related exactly when it is
      not the current post and (if the current post has tags) shares a tag. */
  lemma RelatedMembership(currentSlug: string, limit: Option<int>, current: Option<BlogDoc>, docs: seq<BlogDoc>, doc: BlogDoc)
    requires EffectiveLimit(limit) >= |docs|
    ensures doc in RelatedDocs(currentSlug, limit, Some(current), Some(docs))
        <==> doc in docs && doc.uid != currentSlug
             && (CurrentTags(current) == [] || SharesTag(TagsOf(doc), CurrentTags(current)))
  {
    var p := Related(currentSlug, CurrentTags(current));
    var f := Filter(docs, p);
    TakeLength(f, EffectiveLimit(limit));
    if doc in docs && p(doc) {
      var i :| 0 <= i < |docs| && docs[i] == doc;
      assert docs[i] in f;
    }
    if doc in f {
      var i :| 0 <= i < |f| && f[i] == doc;
      assert p(f[i]) && f[i] in docs;
    }
  }
}
