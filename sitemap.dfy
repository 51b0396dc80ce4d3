/** The sitemap: four fixed pages, then one entry per indexed blog post,
    then one per location.

    The base URL and the current date are inputs: the base URL is what
    `getBaseUrl()` returns, and the current date is the `CurrentDate`
    stamp. Priorities are written in tenths. */
module Sitemap {
  import opened Js
  import opened Seqs
  import BlogData
  import LocationData

  datatype ChangeFrequency = Daily | Weekly | Monthly

  /** An entry's `lastModified`: the date of the request, or
      `new Date(post.publishDate)`. */
  datatype LastModified = CurrentDate | PublishDate(date: JsValue)

  datatype Entry = Entry(url: string, lastModified: LastModified, changeFrequency: ChangeFrequency, priority: nat)

  /** The two fields the sitemap reads from a post beyond its slug. Neither
      is a field of `BlogPost`, so for the posts `getAllBlogPosts` returns
      both are `undefined`. */
  datatype SitemapPost = SitemapPost(slug: string, noIndex: JsValue, publishDate: JsValue)

  function FromBlogPost(post: BlogData.BlogPost): SitemapPost {
    SitemapPost(post.slug, Undefined, Undefined)
  }

  function StaticPages(base: string): (r: seq<Entry>)
    ensures |r| == 4 && r[0].url == base
    ensures forall i :: 0 <= i < |r| ==> r[i].lastModified == CurrentDate && r[i].priority == 10 - i
  {
    [ Entry(base, CurrentDate, Daily, 10),
      Entry(base + "/blog", CurrentDate, Daily, 9),
      Entry(base + "/locations", CurrentDate, Weekly, 8),
      Entry(base + "/contact-us", CurrentDate, Monthly, 7) ]
  }

  function BlogUrl(base: string, slug: string): string {
    base + "/blog/" + slug
  }

  function LocationUrl(base: string, slug: string): string {
    base + "/locations/" + slug
  }

  /** `!post.noIndex` */
  predicate Indexed(post: SitemapPost) {
    !Truthy(post.noIndex)
  }

  function BlogEntry(base: string, post: SitemapPost): Entry {
    Entry(BlogUrl(base, post.slug),
          if Truthy(post.publishDate) then PublishDate(post.publishDate) else CurrentDate,
          Weekly, 8)
  }

  function LocationEntry(base: string, location: LocationData.Location): Entry {
    Entry(LocationUrl(base, location.slug), CurrentDate, Monthly, 7)
  }

  /** `blogPages`: `posts` is `None` when fetching them throws, which
      leaves the section empty. */
  function BlogPages(base: string, posts: Option<seq<SitemapPost>>): (r: seq<Entry>)
    ensures posts.None? ==> r == []
    ensures posts.Some? ==> |r| <= |posts.value|
    ensures forall i :: 0 <= i < |r| ==> r[i].changeFrequency == Weekly && r[i].priority == 8
  {
    if posts.None? then []
    else Map(Filter(posts.value, Indexed), (post: SitemapPost) => BlogEntry(base, post))
  }

  /** `locationPages`: `locations` is `None` when fetching them throws. */
  function LocationPages(base: string, locations: Option<seq<LocationData.Location>>): (r: seq<Entry>)
    ensures locations.None? ==> r == []
    ensures locations.Some? ==> |r| == |locations.value|
    ensures locations.Some? ==> forall i :: 0 <= i < |r| ==> r[i].url == LocationUrl(base, locations.value[i].slug)
  {
    if locations.None? then []
    else Map(locations.value, (location: LocationData.Location) => LocationEntry(base, location))
  }

  /** `sitemap()` */
  function SitemapEntries(base: string, posts: Option<seq<SitemapPost>>, locations: Option<seq<LocationData.Location>>): (r: seq<Entry>)
    ensures |r| == 4 + |BlogPages(base, posts)| + |LocationPages(base, locations)|
  {
    StaticPages(base) + BlogPages(base, posts) + LocationPages(base, locations)
  }

  /** The list is the static pages, then the blog pages, then the location
      pages; a failed fetch empties its own section and no other. */
  lemma Layout(base: string, posts: Option<seq<SitemapPost>>, locations: Option<seq<LocationData.Location>>)
    ensures var r := SitemapEntries(base, posts, locations);
      var b := |BlogPages(base, posts)|;
      && r[..4] == StaticPages(base)
      && r[4..4 + b] == BlogPages(base, posts)
      && r[4 + b..] == LocationPages(base, locations)
    ensures posts.None? ==> SitemapEntries(base, posts, locations) == StaticPages(base) + LocationPages(base, locations)
    ensures locations.None? ==> SitemapEntries(base, posts, locations) == StaticPages(base) + BlogPages(base, posts)
  {
    var s := StaticPages(base);
    var bp := BlogPages(base, posts);
    var lp := LocationPages(base, locations);
    assert s + bp + lp == s + (bp + lp);
    assert (s + bp + lp)[..4] == s;
    assert (s + bp + lp)[4..4 + |bp|] == bp;
    assert (s + bp + lp)[4 + |bp|..] == lp;
  }

  /** The four fixed pages: the home page and the blog daily, the location
      list weekly, the contact page monthly, at priorities 1.0, 0.9, 0.8 and
      0.7, all dated now. */
  lemma StaticPagesShape(base: string)
    ensures var r := StaticPages(base);
      && |r| == 4
      && r[0].url == base && r[1].url == base + "/blog"
      && r[2].url == base + "/locations" && r[3].url == base + "/contact-us"
      && r[0].changeFrequency == Daily && r[1].changeFrequency == Daily
      && r[2].changeFrequency == Weekly && r[3].changeFrequency == Monthly
      && (forall i :: 0 <= i < 4 ==> r[i].priority == 10 - i && r[i].lastModified == CurrentDate)
  {
  }

  /** A post is listed exactly when it is indexed, in fetch order (entry i
      is the i-th indexed post), under
      `/blog/` with its slug, weekly at 0.8, dated by its publish date when
      it has one. */
  lemma BlogPagesContents(base: string, posts: seq<SitemapPost>)
    ensures var r := BlogPages(base, Some(posts));
      && |r| <= |posts|
      && IsSubsequence(Filter(posts, Indexed), posts)
      && |r| == |Filter(posts, Indexed)|
      && (forall i :: 0 <= i < |r| ==> r[i] == BlogEntry(base, Filter(posts, Indexed)[i]))
      && (forall i :: 0 <= i < |posts| && Indexed(posts[i]) ==> BlogEntry(base, posts[i]) in r)
      && (forall e :: e in r ==> exists p :: p in posts && Indexed(p) && e == BlogEntry(base, p))
      && (forall e :: e in r ==> e.changeFrequency == Weekly && e.priority == 8)
    ensures forall p :: p in posts ==>
      (BlogEntry(base, p).lastModified == CurrentDate <==> !Truthy(p.publishDate))
  {
    var kept := Filter(posts, Indexed);
    var r := BlogPages(base, Some(posts));
    FilterIsSubsequence(posts, Indexed);
    forall i | 0 <= i < |posts| && Indexed(posts[i])
      ensures BlogEntry(base, posts[i]) in r
    {
      var k :| 0 <= k < |kept| && kept[k] == posts[i];
      assert r[k] == BlogEntry(base, posts[i]);
    }
    forall e | e in r
      ensures exists p :: p in posts && Indexed(p) && e == BlogEntry(base, p)
    {
      var k :| 0 <= k < |r| && r[k] == e;
      assert kept[k] in posts && Indexed(kept[k]);
    }
  }

  /** Every post `getAllBlogPosts` returns is listed, in order and dated
      now: the `noIndex` filter keeps them all, since a `BlogPost` has no
      such field. */
  lemma FetchedPostsAllListed(base: string, posts: seq<BlogData.BlogPost>)
    ensures var r := BlogPages(base, Some(Map(posts, FromBlogPost)));
      && |r| == |posts|
      && forall i :: 0 <= i < |posts| ==>
        r[i].url == BlogUrl(base, posts[i].slug) && r[i].lastModified == CurrentDate
  {
    var ps := Map(posts, FromBlogPost);
    FilterAll(ps, Indexed);
  }

  /** One location entry per location, in order, under `/locations/`. */
  lemma LocationPagesContents(base: string, locations: seq<LocationData.Location>)
    ensures var r := LocationPages(base, Some(locations));
      && |r| == |locations|
      && forall i :: 0 <= i < |r| ==>
        r[i].url == LocationUrl(base, locations[i].slug) && r[i].changeFrequency == Monthly && r[i].priority == 7
  {
  }

  /** Blog and location URLs are told apart by the segment after the base,
      and the slug is recovered from a URL of either kind. */
  lemma UrlForms(base: string, s: string, t: string)
    ensures BlogUrl(base, s) != LocationUrl(base, t)
    ensures BlogUrl(base, s) == BlogUrl(base, t) <==> s == t
    ensures LocationUrl(base, s) == LocationUrl(base, t) <==> s == t
    ensures forall e :: e in StaticPages(base) ==> e.url != BlogUrl(base, s) && e.url != LocationUrl(base, t)
  {
    var n := |base|;
    assert BlogUrl(base, s)[n + 1] == 'b' && LocationUrl(base, t)[n + 1] == 'l';
    if BlogUrl(base, s) == BlogUrl(base, t) {
      assert s == BlogUrl(base, s)[n + 6..];
    }
    if LocationUrl(base, s) == LocationUrl(base, t) {
      assert s == LocationUrl(base, s)[n + 11..];
    }
    var st := StaticPages(base);
    assert |st[0].url| < |BlogUrl(base, s)| && |st[0].url| < |LocationUrl(base, t)|;
    assert |st[1].url| < |BlogUrl(base, s)| && st[1].url[n + 1] == 'b';
    assert st[2].url[n + 1] == 'l' && |st[2].url| < |LocationUrl(base, t)|;
    assert st[3].url[n + 1] == 'c';
  }

  function PostSlug(post: SitemapPost): string {
    post.slug
  }

  function LocationSlug(location: LocationData.Location): string {
    location.slug
  }

  function EntryUrl(e: Entry): string {
    e.url
  }

  /** The four fixed URLs differ from one another. */
  lemma StaticUrlsDistinct(base: string)
    ensures DistinctBy(StaticPages(base), EntryUrl)
  {
    var st := StaticPages(base);
    var n := |base|;
    assert st[1].url[n + 1] == 'b' && st[2].url[n + 1] == 'l' && st[3].url[n + 1] == 'c';
  }

  /** Posts with distinct slugs get distinct URLs. */
  lemma BlogUrlsDistinct(base: string, posts: seq<SitemapPost>)
    requires DistinctBy(posts, PostSlug)
    ensures DistinctBy(BlogPages(base, Some(posts)), EntryUrl)
  {
    var kept := Filter(posts, Indexed);
    FilterDistinctBy(posts, Indexed, PostSlug);
    var r := BlogPages(base, Some(posts));
    forall i, j | 0 <= i < j < |r|
      ensures r[i].url != r[j].url
    {
      UrlForms(base, kept[i].slug, kept[j].slug);
    }
  }

  /** Locations with distinct slugs get distinct URLs. */
  lemma LocationUrlsDistinct(base: string, locations: seq<LocationData.Location>)
    requires DistinctBy(locations, LocationSlug)
    ensures DistinctBy(LocationPages(base, Some(locations)), EntryUrl)
  {
    var r := LocationPages(base, Some(locations));
    forall i, j | 0 <= i < j < |r|
      ensures r[i].url != r[j].url
    {
      UrlForms(base, locations[i].slug, locations[j].slug);
    }
  }

  /** No URL is listed twice when the posts' slugs are distinct and so are
      the locations'. */
  lemma UrlsUnique(base: string, posts: Option<seq<SitemapPost>>, locations: Option<seq<LocationData.Location>>)
    requires posts.Some? ==> DistinctBy(posts.value, PostSlug)
    requires locations.Some? ==> DistinctBy(locations.value, LocationSlug)
    ensures DistinctBy(SitemapEntries(base, posts, locations), EntryUrl)
  {
    var st := StaticPages(base);
    var bp := BlogPages(base, posts);
    var lp := LocationPages(base, locations);
    var r := SitemapEntries(base, posts, locations);
    StaticUrlsDistinct(base);
    if posts.Some? {
      BlogUrlsDistinct(base, posts.value);
    }
    if locations.Some? {
      LocationUrlsDistinct(base, locations.value);
    }
    forall i, j | 0 <= i < j < |r|
      ensures r[i].url != r[j].url
    {
      var b := |bp|;
      if j < 4 {
        assert r[i] == st[i] && r[j] == st[j];
      } else if j < 4 + b {
        var pj := Filter(posts.value, Indexed)[j - 4];
        assert r[j] == bp[j - 4] && r[j].url == BlogUrl(base, pj.slug);
        if i < 4 {
          assert r[i] == st[i];
          UrlForms(base, pj.slug, "");
        } else {
          assert r[i] == bp[i - 4];
        }
      } else {
        var lj := locations.value[j - 4 - b];
        assert r[j] == lp[j - 4 - b] && r[j].url == LocationUrl(base, lj.slug);
        if i < 4 {
          assert r[i] == st[i];
          UrlForms(base, "", lj.slug);
        } else if i < 4 + b {
          var pi := Filter(posts.value, Indexed)[i - 4];
          assert r[i] == bp[i - 4] && r[i].url == BlogUrl(base, pi.slug);
          UrlForms(base, pi.slug, lj.slug);
        } else {
          assert r[i] == lp[i - 4 - b];
        }
      }
    }
  }
}
