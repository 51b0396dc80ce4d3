/** The blog index page: the category filter over all posts and the
    category its hero section highlights. */
module BlogPage {
  import opened Js
  import opened Seqs
  import opened BlogData

  const AllResources := "All Resources"

  /** `post.tags.some((tag) => tag === category)` */
  function HasTag(category: string): BlogPost -> bool {
    (post: BlogPost) => category in post.tags
  }

  /** Whether the `category` search parameter selects a filter. */
  predicate Selects(category: Option<string>) {
    category.Some? && category.value != "" && category.value != AllResources
  }

  /** `filteredPosts` */
  function FilteredPosts(category: Option<string>, posts: seq<BlogPost>): (r: seq<BlogPost>)
    ensures |r| <= |posts|
    ensures Selects(category) ==> forall i :: 0 <= i < |r| ==> r[i] in posts && category.value in r[i].tags
  {
    if Selects(category) then Filter(posts, HasTag(category.value)) else posts
  }

  /** `category || "All Resources"` */
  function HeroCategory(category: Option<string>): (r: string)
    ensures r != ""
    ensures r == AllResources <==> !Selects(category)
    ensures Selects(category) ==> r == category.value
  {
    if category.Some? then OrElse(category.value, AllResources) else AllResources
  }

  /** Without a category, or with "All Resources", every post is shown. */
  lemma UnfilteredWithoutCategory(category: Option<string>, posts: seq<BlogPost>)
    requires !Selects(category)
    ensures FilteredPosts(category, posts) == posts
  {
  }

  /** With a category, a post is shown exactly when one of its tags is the
      category, compared case-sensitively. */
  lemma CategoryMembership(category: string, posts: seq<BlogPost>, post: BlogPost)
    requires category != "" && category != AllResources
    ensures post in FilteredPosts(Some(category), posts) <==> post in posts && category in post.tags
  {
    var f := Filter(posts, HasTag(category));
    if post in posts && category in post.tags {
      var i :| 0 <= i < |posts| && posts[i] == post;
      assert HasTag(category)(posts[i]);
    }
    if post in f {
      var i :| 0 <= i < |f| && f[i] == post;
      assert HasTag(category)(f[i]);
    }
  }

  /** The posts shown keep the order of all posts. */
  lemma CategoryKeepsOrder(category: Option<string>, posts: seq<BlogPost>)
    ensures IsSubsequence(FilteredPosts(category, posts), posts)
  {
    if Selects(category) {
      FilterIsSubsequence(posts, HasTag(category.value));
    } else {
      SubsequenceRefl(posts);
    }
  }

  /** The hero and the list agree: the hero names "All Resources" exactly
      when nothing is filtered out by category, and otherwise the category
      every shown post carries. */
  lemma HeroMatchesFilter(category: Option<string>, posts: seq<BlogPost>)
    ensures HeroCategory(category) == AllResources <==> !Selects(category)
    ensures !Selects(category) ==> FilteredPosts(category, posts) == posts
    ensures Selects(category) ==>
      HeroCategory(category) == category.value
      && forall i :: 0 <= i < |FilteredPosts(category, posts)| ==> HeroCategory(category) in FilteredPosts(category, posts)[i].tags
  {
    if Selects(category) {
      var f := Filter(posts, HasTag(category.value));
      forall i | 0 <= i < |f|
        ensures category.value in f[i].tags
      {
        assert HasTag(category.value)(f[i]);
      }
    }
  }

  /** Every post the site builds carries the category "Blog", so the filter
      looks at tags only. */
  lemma CategoryIgnoresPostCategory(category: Option<string>, response: Option<seq<BlogDoc>>)
    ensures var posts := AllBlogPosts(response);
      forall i :: 0 <= i < |FilteredPosts(category, posts)| ==> FilteredPosts(category, posts)[i].category == DefaultCategory
  {
    var posts := AllBlogPosts(response);
    var f := FilteredPosts(category, posts);
    forall i | 0 <= i < |f|
      ensures f[i].category == DefaultCategory
    {
      assert f[i] in posts;
      var j :| 0 <= j < |posts| && posts[j] == f[i];
      assert posts[j] == TransformBlogPost(response.value[j]);
    }
  }
}
