/** The JSON-LD schemas a blog post page embeds: the article, the FAQ page,
    the question-and-answer page and the breadcrumb trail.

    The CMS renderers are not modelled: a rich-text field carries the
    result of `asText` on it, and the image carries the URL `asImageSrc`
    returns for it. JSON serialisation is left out: each schema is a
    record with the keys the page emits. */
module StructuredData {
  import opened Js
  import opened Seqs

  /** A field `extractTextFromAnswer` accepts: `null`/`undefined`, a plain
      string, or a rich-text field (an array, so always truthy) with its
      rendered text. */
  datatype AnswerField = NullAnswer | StringAnswer(s: string) | RichAnswer(rendered: string)

  predicate AnswerTruthy(a: AnswerField) {
    match a
    case NullAnswer => false
    case StringAnswer(s) => s != ""
    case RichAnswer(_) => true
  }

  /** `extractTextFromAnswer(answer)` */
  function ExtractText(a: AnswerField): (r: string)
    ensures a.NullAnswer? ==> r == ""
    ensures a.StringAnswer? ==> r == a.s
    ensures a.RichAnswer? ==> r == Trim(a.rendered) && Trimmed(r)
  {
    match a
    case NullAnswer => ""
    case StringAnswer(s) => s
    case RichAnswer(rendered) => TrimFacts(rendered); Trim(rendered)
  }

  /** One FAQ entry: `question` is `None` when the field is null, else its
      rendered text. */
  datatype Faq = Faq(question: Option<string>, answer: AnswerField)

  datatype AuthorInfo = AuthorInfo(name: Option<string>, image: Option<string>)

  /** The parts of a blog document the schemas read. Strings are `""`
      where the field is null. */
  datatype SchemaPost = SchemaPost(
    uid: string,
    schemaType: string,
    titleText: string,
    metaDescription: string,
    descriptionText: string,
    imageSrc: Option<string>,   // `asImageSrc(image)`, `None` when the image has no url
    snippet: AnswerField,       // `feature_snippet_target`
    publishDate: string,
    firstPublished: string,
    lastPublished: string,
    authorNameText: string,
    faq: Option<seq<Faq>>,
    quickAnswer: string)

  datatype Person = Person(name: string, image: Option<string>)

  datatype Article = Article(
    typeName: string,
    headline: string,
    description: string,
    summary: Option<string>,    // `abstract`
    image: seq<string>,
    datePublished: string,
    dateModified: string,
    author: Person,
    publisherName: string,
    logoUrl: string,
    pageId: string)

  datatype Question = Question(name: string, answer: string)

  datatype ListItem = ListItem(position: int, name: string, item: string)

  const DefaultSiteUrl := "https://fitgo.com"
  const Publisher := "FitGo"

  /** `process.env.NEXT_PUBLIC_SITE_URL || "https://fitgo.com"` */
  function SiteUrl(env: string): string {
    OrElse(env, DefaultSiteUrl)
  }

  function PostUrl(env: string, post: SchemaPost): string {
    SiteUrl(env) + "/blog/" + post.uid
  }

  /** `featuredSnippetText`: null when the field is falsy. */
  function SnippetText(post: SchemaPost): Option<string> {
    if AnswerTruthy(post.snippet) then Some(ExtractText(post.snippet)) else None
  }

  function AuthorOf(post: SchemaPost, author: Option<AuthorInfo>): Person {
    if author.Some? then
      Person(OrElse(if author.value.name.Some? then author.value.name.value else "", Publisher),
             if author.value.image.Some? && author.value.image.value != "" then author.value.image else None)
    else Person(OrElse(post.authorNameText, Publisher), None)
  }

  /** `articleSchema` */
  function ArticleSchema(env: string, post: SchemaPost, author: Option<AuthorInfo>): (a: Article)
    ensures a.typeName != "" && a.author.name != "" && a.publisherName == Publisher
    ensures |a.image| <= 1
    ensures a.pageId == SiteUrl(env) + "/blog/" + post.uid
  {
    var snippet := SnippetText(post);
    Article(
      OrElse(post.schemaType, "Article"),
      OrElse(post.titleText, ""),
      OrElse(OrElse(post.metaDescription, post.descriptionText), ""),
      if snippet.Some? && snippet.value != "" then snippet else None,
      if post.imageSrc.Some? && post.imageSrc.value != "" then [post.imageSrc.value] else [],
      OrElse(post.publishDate, post.firstPublished),
      post.lastPublished,
      AuthorOf(post, author),
      Publisher,
      SiteUrl(env) + "/Logo.png",
      PostUrl(env, post))
  }

  /** The article's defaults and optional keys. */
  lemma ArticleDefaults(env: string, post: SchemaPost, author: Option<AuthorInfo>)
    ensures var a := ArticleSchema(env, post, author);
      && (post.schemaType == "" ==> a.typeName == "Article")
      && (post.metaDescription != "" ==> a.description == post.metaDescription)
      && (post.metaDescription == "" ==> a.description == post.descriptionText)
      && (a.summary.Some? <==> SnippetText(post).Some? && SnippetText(post).value != "")
      && (a.summary.Some? ==> a.summary == SnippetText(post))
      && (|a.image| == 0 || |a.image| == 1)
      && (post.imageSrc.None? ==> a.image == [])
      && (post.imageSrc.Some? && post.imageSrc.value != "" ==> a.image == [post.imageSrc.value])
      && a.author.name != ""
      && (author.None? && post.authorNameText == "" ==> a.author.name == "FitGo")
      && (author.Some? && author.value.name.None? ==> a.author.name == "FitGo")
      && (a.author.image.Some? <==> author.Some? && author.value.image.Some? && author.value.image.value != "")
      && a.pageId == SiteUrl(env) + "/blog/" + post.uid
  {
  }

  /** A FAQ entry is listed when both its question and its answer are
      truthy. */
  predicate Complete(f: Faq) {
    f.question.Some? && AnswerTruthy(f.answer)
  }

  function ToQuestion(f: Faq): Question {
    Question(OrElse(if f.question.Some? then f.question.value else "", ""), ExtractText(f.answer))
  }

  /** `faqSchema`: its `mainEntity`, or `None` for the schema's `null`. */
  function FaqSchema(post: SchemaPost): (r: Option<seq<Question>>)
    ensures r.None? <==> post.faq.None? || post.faq.value == []
    ensures r.Some? ==> |r.value| <= |post.faq.value|
  {
    if post.faq.None? || post.faq.value == [] then None
    else Some(Map(Filter(post.faq.value, Complete), ToQuestion))
  }

  /** The FAQ schema exists exactly when there are FAQs; it lists, in order,
      the complete ones and no others. */
  lemma FaqSchemaKeepsComplete(post: SchemaPost)
    ensures FaqSchema(post).None? <==> post.faq.None? || post.faq.value == []
    ensures FaqSchema(post).Some? ==>
      var kept := Filter(post.faq.value, Complete);
      && FaqSchema(post).value == Map(kept, ToQuestion)
      && IsSubsequence(kept, post.faq.value)
      && (forall i :: 0 <= i < |kept| ==> Complete(kept[i]))
      && (forall i :: 0 <= i < |post.faq.value| && Complete(post.faq.value[i]) ==> post.faq.value[i] in kept)
  {
    if post.faq.Some? {
      FilterIsSubsequence(post.faq.value, Complete);
    }
  }

  /** `qaPageSchema`: the question and the answer, or `None` for `null`. */
  function QaPageSchema(post: SchemaPost): (r: Option<Question>)
    ensures r.Some? ==> Trim(post.quickAnswer) != "" && r.value.answer == post.quickAnswer && r.value.name != ""
  {
    if post.quickAnswer == "" then None
    else if Trim(post.quickAnswer) == "" then None
    else Some(Question(OrElse(post.titleText, "What is this about?"), post.quickAnswer))
  }

  /** The question-and-answer page exists exactly when the quick answer is
      not blank, and it carries the answer as written. */
  lemma QaPageWhenAnswered(post: SchemaPost)
    ensures QaPageSchema(post).Some? <==> Trim(post.quickAnswer) != ""
    ensures QaPageSchema(post).Some? ==> QaPageSchema(post).value.answer == post.quickAnswer
    ensures QaPageSchema(post).Some? && post.titleText == "" ==> QaPageSchema(post).value.name == "What is this about?"
  {
    if post.quickAnswer == "" {
      TrimFacts(post.quickAnswer);
    }
  }

  /** `breadcrumbSchema.itemListElement` */
  function Breadcrumb(env: string, post: SchemaPost): (r: seq<ListItem>)
    ensures |r| == 3 && forall i :: 0 <= i < 3 ==> r[i].position == i + 1
    ensures r[0].item == SiteUrl(env) && r[2].item == SiteUrl(env) + "/blog/" + post.uid
  {
    [ ListItem(1, "Home", SiteUrl(env)),
      ListItem(2, "Blog", SiteUrl(env) + "/blog"),
      ListItem(3, OrElse(post.titleText, "Post"), PostUrl(env, post)) ]
  }

  /** Three items at positions 1, 2, 3, each one level below the last,
      ending at the post. */
  lemma BreadcrumbShape(env: string, post: SchemaPost)
    ensures var b := Breadcrumb(env, post);
      && |b| == 3
      && (forall i :: 0 <= i < 3 ==> b[i].position == i + 1)
      && b[2].item == SiteUrl(env) + "/blog/" + post.uid
      && StartsWith(b[1].item, b[0].item) && StartsWith(b[2].item, b[1].item)
      && b[0].item != ""
  {
    var b := Breadcrumb(env, post);
    assert b[1].item == b[0].item + "/blog";
    assert b[2].item == b[1].item + ("/" + post.uid);
  }
}
