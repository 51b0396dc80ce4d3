# FitGo site logic in Dafny

This is a verified model of the decision logic inside the FitGo marketing site, a Next.js front end. The site has a CMS-backed blog and location directory, and a sign-in and profile flow backed by a hosted database. The model covers:

- **Profile sync endpoint** (`POST` and `PUT /api/users/sync`). `POST` validates the body and builds the insert row or the update payload. The update keeps "sticky" columns: a stored `full_name` or `profile_picture` is never overwritten by sign-in metadata. `PUT` is the explicit edit. The payload is a record of optional column values. The store's update is `Apply`. The policy is stated as a table of per-column rules. The methods `Post`, `UpdateData` and `Put` build the payload field by field, as the handler does, and are proved equal to that table.
- **Rich-text walkers.**
  - `generateTableOfContents` walks the body in pre-order with a heading counter. It reads a heading's level from its type name and its text through a chain of fallbacks, and numbers the ids `heading-N`.
  - `extractListItems` collects the trimmed texts of list items.
  - Both are imperative methods over a mutable collector, proved against recursive specification functions. The field defaults of `transformLocation` are also modelled.
- **Selection rules:**
  - the related-post selection (`getRelatedBlogPosts`) and the related-posts strip;
  - the blog category filter;
  - the location search filter, and the split-and-highlight of matches;
  - the sitemap list;
  - the FAQ list and its open/close toggle.
- **Small derivations and state:**
  - the table-of-contents active-heading loops and click handler;
  - the auth provider's metadata extraction, event gating and sign-out;
  - the JSON-LD schemas a blog post embeds;
  - the profile page's initials, avatar, name save and upload checks, and handler state;
  - the navigation bar's initials, avatar, scroll shadow and menu;
  - `formatReadingTime`.

JavaScript values that matter are explicit:
- `JsValue` covers `undefined`, `null`, booleans, integers and strings.
- `Truthy` is JavaScript truthiness.
- `||` is `Or`.
- `trim` removes JavaScript's whitespace set.
- `toLowerCase` and `toUpperCase` are ASCII folds.

CMS renderers (`asText`, `asHTML`, `asImageSrc`) are not interpreted. A document carries their results as strings. Element positions, the window width and scroll offsets are integer inputs. Clock readings are opaque strings passed in.

Body unwrapping in `generateTableOfContents` follows the code: `content` is used before `blocks`, and a wrapper with neither array gives no entries.

The sitemap reads `post.noIndex` and `post.publishDate`. Neither is a field of the `BlogPost` that `getAllBlogPosts` returns (src/lib/blogdata.ts:5-18). So with the real caller the no-index filter keeps every post, and every blog entry uses the current date. `Sitemap.FetchedPostsAllListed` states this. `Sitemap.BlogPagesContents` states the rule for posts that do carry the two fields.

## Model

| member | source | states |
|---|---|---|
| ProfileSync.InsertPayload | src/app/api/users/sync/route.ts:51-76 | the insert names the caller's id and email with `email_verified = false`, and carries a name or a picture exactly when one is provided |
| ProfileSync.UpdatePayload | src/app/api/users/sync/route.ts:89-143 | the update writes the email and never id, created_at or email_verified, and writes full_name or profile_picture only over a falsy stored value or no re-fetched row |
| ProfileSync.SyncDecision | src/app/api/users/sync/route.ts:21-191 | 400 exactly for a falsy id or email; 500 exactly when the existence check fails with a code other than PGRST116; an update, keyed by the caller's id, exactly when the user exists |
| ProfileSync.Apply | src/app/api/users/sync/route.ts:145-150 | an update assigns exactly the columns the payload names and leaves every other column as stored |
| ProfileSync.Post | src/app/api/users/sync/route.ts:21-191 | 400 exactly when `userId` or `email` is falsy; 500 exactly when the existence check fails with a code other than PGRST116; otherwise an update of the caller's row when it exists, else an insert; the result equals the policy-table decision |
| ProfileSync.UpdateData | src/app/api/users/sync/route.ts:89-143 | the `updateData` built field by field equals the table-driven update payload for the re-fetched row |
| ProfileSync.EditDecision | src/app/api/users/sync/route.ts:198-231 | rejected exactly when `userId` is falsy; otherwise keyed by that id, it writes `updated_at`, writes `email_verified` and `full_name` as given whenever they are not undefined, writes a supplied picture or `null` for a falsy one, and names no other column; each entry follows the edit rule of the policy table |
| ProfileSync.Put | src/app/api/users/sync/route.ts:193-256 | rejected exactly when `userId` is falsy; otherwise an update keyed by the caller's id with the edit payload; no not-found outcome |
| ProfileSync.SyncValidation | src/app/api/users/sync/route.ts:26-31 | the 400 "User ID and email are required" answer is given exactly for a falsy id or email, and an accepted insert names the caller's id and email |
| ProfileSync.InsertShape | src/app/api/users/sync/route.ts:51-164 | the insert always has id, email, both timestamps and `email_verified = false`; names and picture only when not undefined, null or ''; `google_id` and `auth_provider` whenever not undefined or null, so '' is written; every written value is the incoming one |
| ProfileSync.UpdateShape | src/app/api/users/sync/route.ts:89-143 | the update always has email and `updated_at` and never id, created_at or email_verified; first and last name when provided; provider fields when present; full_name and profile_picture only when provided and the stored value is falsy or no row was re-fetched |
| ProfileSync.StickyColumnsSurvive | src/app/api/users/sync/route.ts:94-129 | once the stored full_name or profile_picture is truthy, no sync body assigns it |
| ProfileSync.RefreshedColumnsOverwrite | src/app/api/users/sync/route.ts:131-143 | a provided first or last name, and a present google id or provider, always replace the stored value |
| ProfileSync.ReplayChangesNothing | src/app/api/users/sync/route.ts:94-143 | against a row that already reflects the body, a sync assigns no sticky column and changes nothing but `updated_at` |
| ProfileSync.SyncLeavesReflectingRow | src/app/api/users/sync/route.ts:51-181 | whichever branch a successful sync takes, the row it leaves reflects the body |
| ProfileSync.InsertReflects | src/app/api/users/sync/route.ts:51-76 | the inserted row reflects the body |
| ProfileSync.UpdateReflects | src/app/api/users/sync/route.ts:89-143 | the updated row reflects the body |
| ProfileSync.SyncIdempotent | src/app/api/users/sync/route.ts:94-129 | repeating a sign-in sync against the row the first one produced never assigns full_name or profile_picture and keeps every column but `updated_at` |
| ProfileSync.EditIsAuthoritative | src/app/api/users/sync/route.ts:214-231 | an edit writes a supplied full_name or email_verified verbatim (null and '' included), stores a falsy picture as null, leaves omitted fields alone, and assigns nothing else but `updated_at` |
| ProfileSync.SyncKeepsWhatEditReplaces | src/app/api/users/sync/route.ts:94-110 | for a stored name, a sync with another name keeps the stored one while an edit replaces it |
| TocGenerator.StrOr | src/lib/utils/toc-generator.ts:113-114 | `a \|\| b` on optional strings picks `a` exactly when it is a non-empty string |
| TocGenerator.LeadingDigits | src/lib/utils/toc-generator.ts:139-141 | the longest all-digit prefix, as `parseInt` reads it |
| TocGenerator.LevelIsDigit | src/lib/utils/toc-generator.ts:136-142 | every recognised heading type gets as its level the digit it ends with, in 1..6 |
| TocGenerator.HeadingTypesShape | src/lib/utils/toc-generator.ts:120-133 | the twelve accepted type names are exactly `h` or `heading` followed by a digit 1-6 |
| TocGenerator.JoinedIsConcat | src/lib/utils/toc-generator.ts:157-163 | `filter(Boolean).join("")` equals plain concatenation |
| TocGenerator.SpansTextIsJoined | src/lib/utils/toc-generator.ts:153-164 | the spans fallback is the span texts one after the other |
| TocGenerator.ChildrenTextIsJoined | src/lib/utils/toc-generator.ts:166-178 | the children fallback is each child's string text, else its string content, concatenated |
| TocGenerator.FirstString | src/lib/utils/toc-generator.ts:182-190 | the first of the listed properties that is a non-empty string, or "" when none is |
| TocGenerator.HeadingIdInjective | src/lib/utils/toc-generator.ts:192 | distinct counter values give distinct `heading-N` ids |
| TocGenerator.Classify | src/lib/utils/toc-generator.ts:110-142 | a block is classified as a heading exactly when its final type is a recognised heading type |
| TocGenerator.ClassifyWellFormed | src/lib/utils/toc-generator.ts:136-195 | a heading's level is in 1..6 and its text is trimmed |
| TocGenerator.EntriesNumbering | src/lib/utils/toc-generator.ts:134-195 | each entry's id is `heading-N` for its heading's number, numbers strictly increase and lie within the headings counted, so dropped headings leave gaps |
| TocGenerator.TocIdsUnique | src/lib/utils/toc-generator.ts:192-195 | no two entries share an id |
| TocGenerator.TocEntriesWellFormed | src/lib/utils/toc-generator.ts:194-195 | every entry has a level in 1..6 and a non-empty text equal to its own trim |
| TocGenerator.EntriesCount | src/lib/utils/toc-generator.ts:192-203 | exactly the headings with non-blank text yield entries, in order, never more than the headings counted |
| TocGenerator.EntriesAppend | src/lib/utils/toc-generator.ts:206-219 | walking one list after another numbers the second after the headings of the first |
| TocGenerator.TocFromAppend | src/lib/utils/toc-generator.ts:206-219 | the entries of two consecutive walks are the first's then the second's, renumbered after the first's headings |
| TocGenerator.Toc | src/lib/utils/toc-generator.ts:34-244 | entries with pairwise distinct ids, each of level 1 to 6 with non-empty trimmed text |
| TocGenerator.TocOfNoBlocks | src/lib/utils/toc-generator.ts:37-89 | a falsy body, a non-object, a wrapper without a `content` or `blocks` array, and an empty block list all give [] |
| TocGenerator.TocBuilder.constructor | src/lib/utils/toc-generator.ts:100-101 | the walk starts with no items and the counter at 0 |
| TocGenerator.TocBuilder.ExtractText | src/lib/utils/toc-generator.ts:146-190 | the text found equals the precedence chain: `text`, joined spans, joined children, first string property |
| TocGenerator.TocBuilder.Visit | src/lib/utils/toc-generator.ts:109-204 | counts a heading block and appends its entry when its trimmed text is non-empty, exactly as the specification of one block says |
| TocGenerator.TocBuilder.Traverse | src/lib/utils/toc-generator.ts:103-107 | after the loop, the items gained are the entries of the pre-order walk of the list and the counter advanced by its heading count |
| TocGenerator.TocBuilder.TraverseEntry | src/lib/utils/toc-generator.ts:106-219 | an object entry adds its own entry then those of its nested lists; a non-object adds nothing |
| TocGenerator.TocBuilder.TraverseNested | src/lib/utils/toc-generator.ts:206-219 | the nested lists are walked `items`, then `content` when it is a list, then `children` |
| TocGenerator.GenerateTableOfContents | src/lib/utils/toc-generator.ts:34-244 | the result equals the entries of the pre-order walk of the unwrapped block list |
| LocationData.CollectedIsFilterMap | src/lib/locationdata.ts:35-48 | the collected items are the trimmed texts of the list items that have one, in walk order |
| LocationData.CollectedWellFormed | src/lib/locationdata.ts:46-47 | every collected item is non-empty and trimmed |
| LocationData.ItemValueTrimmed | src/lib/locationdata.ts:38-47 | an item's value is trimmed |
| LocationData.NestingOutsideItemsIgnored | src/lib/locationdata.ts:52-54 | only `items` is descended into; `children` and `content` change nothing |
| LocationData.ListCollector.constructor | src/lib/locationdata.ts:29 | the collector starts empty |
| LocationData.ListCollector.Traverse | src/lib/locationdata.ts:32-56 | the walk throws exactly when it meets a null entry; otherwise it appends the collected items of the walk |
| LocationData.ListCollector.TraverseEntry | src/lib/locationdata.ts:35-55 | one entry: a list item's text, then its nested `items` |
| LocationData.ListCollector.VisitItem | src/lib/locationdata.ts:36-49 | a list item with non-blank text pushes that text trimmed; nothing else is pushed |
| LocationData.ExtractListItems | src/lib/locationdata.ts:26-87 | equals the specification: [] for a falsy field, the walk's items when it finds any, else the fallback |
| LocationData.ListItems | src/lib/locationdata.ts:27-64 | fails exactly when the walk meets a null entry; a falsy field gives []; otherwise the fallback or a list of non-empty trimmed items |
| LocationData.ListItemsCases | src/lib/locationdata.ts:27-64 | a falsy field gives []; items found by the walk are returned and the fallback unused; the result fails exactly when the walk throws |
| LocationData.Coords | src/lib/locationdata.ts:143-153 | the point is present exactly when latitude and longitude are both numbers |
| LocationData.TransformLocation | src/lib/locationdata.ts:92-155 | fails exactly when extracting the features throws; otherwise keeps the id, the uid as slug, "24/7" hours and the extracted features |
| LocationData.TransformDefaults | src/lib/locationdata.ts:92-155 | hours are always "24/7", rating is `reviews \|\| 0`, image defaults to "", ownerName is absent for empty text |
| LocationData.LocationPresence | src/lib/locationdata.ts:114-153 | the point and the address agree: the placeholder address exactly when there is no point |
| LocationData.TransformAll | src/lib/locationdata.ts:174 | each location is the transform of the document at its position; one failing transform fails the whole map |
| LocationData.AllLocations | src/lib/locationdata.ts:161-179 | a failed fetch gives []; with every document transformable, one location per document in order, each the transform of its document; one document whose features throw empties the whole list |
| LocationData.LocationBySlug | src/lib/locationdata.ts:184-201 | a location exactly when a document was found and its features do not throw; it is that document's transform and carries its id and uid as slug |
| BlogData.OrUndefined | src/lib/blogdata.ts:41 | `s \|\| undefined` is absent exactly for '' |
| BlogData.TransformBlogPost | src/lib/blogdata.ts:23-46 | a post keeps the document's id, its uid as slug and its tags (else []), always has an image, the category "Blog" and no subtitle |
| BlogData.TransformBlogDefaults | src/lib/blogdata.ts:23-46 | image defaults to "/BlogPage.png", category is always "Blog", tags default to [], subtitle is undefined, alt falls back to the title |
| BlogData.AllBlogPosts | src/lib/blogdata.ts:51-69 | [] when the fetch fails; otherwise one post per fetched document, in order, each the document's transform carrying its id, its uid as slug and the fixed "Blog" category |
| BlogData.BlogPostBySlug | src/lib/blogdata.ts:74-91 | null when the fetch throws or finds nothing; otherwise the document's transform, with its id and its uid as slug |
| BlogData.RelatedDocs | src/lib/blogdata.ts:96-155 | none when either fetch throws; otherwise no more than were fetched, each a fetched document that is not the current one and, with current tags, shares one |
| BlogData.RelatedBlogPosts | src/lib/blogdata.ts:96-155 | the transforms of the selected documents, in order; never the current slug; at most `limit` posts, 3 by default |
| BlogData.RelatedExcludesCurrent | src/lib/blogdata.ts:98-146 | the selected documents never include the current slug and number at most `limit`, 3 by default |
| BlogData.RelatedShareTags | src/lib/blogdata.ts:134-150 | with current tags, every result shares one of them; no fallback |
| BlogData.RelatedWithoutTags | src/lib/blogdata.ts:107-121 | without current tags, the first `limit` posts other than the current one |
| BlogData.RelatedKeepsOrder | src/lib/blogdata.ts:118-147 | the results are a subsequence of the fetched, newest-first list |
| BlogData.RelatedMembership | src/lib/blogdata.ts:134-147 | below the limit, a post is related exactly when it is not current and, with current tags, shares one |
| BlogPage.FilteredPosts | src/app/blog/page.tsx:16-20 | no more posts than given; with a category, every shown post is one of them and carries the category as a tag |
| BlogPage.HeroCategory | src/app/blog/page.tsx:24 | never empty; "All Resources" exactly when no category filter applies, otherwise the category |
| BlogPage.UnfilteredWithoutCategory | src/app/blog/page.tsx:16-20 | no category, or "All Resources", shows every post unchanged |
| BlogPage.CategoryMembership | src/app/blog/page.tsx:16-19 | with a category, a post is shown exactly when one of its tags equals it, case-sensitively |
| BlogPage.CategoryKeepsOrder | src/app/blog/page.tsx:16-20 | the shown posts are a subsequence of all posts |
| BlogPage.HeroMatchesFilter | src/app/blog/page.tsx:16-24 | the hero shows "All Resources" exactly when nothing is filtered, else the category every shown post carries |
| BlogPage.CategoryIgnoresPostCategory | src/app/blog/page.tsx:17-19 | every listed post has category "Blog", so only tags decide |
| RelatedPostsView.RelatedPosts | src/components/blog/RelatedPosts.tsx:15-57 | nothing exactly for missing or empty posts; otherwise at most 3 cards, one per shown post in order, none linking to the current post |
| RelatedPostsView.HrefInjective | src/components/blog/RelatedPosts.tsx:34 | distinct uids give distinct `/blog/uid` links |
| RelatedPostsView.CardsAvoid | src/components/blog/RelatedPosts.tsx:34 | posts other than the current one give cards whose link is not the current post's |
| RelatedPostsView.ShownPostsSelection | src/components/blog/RelatedPosts.tsx:23-26 | at most 3, never the current post, in input order, and another post is left out only when 3 were shown |
| RelatedPostsView.CardImageFallback | src/components/blog/RelatedPosts.tsx:27-53 | the image falls back to "/BlogPage.jpg", unlike the transform's ".png"; the description only when non-empty |
| RelatedPostsView.AgreesWithRelatedSelection | src/components/blog/RelatedPosts.tsx:23-26 | for a post without tags, the strip shows the site's related selection with limit 3 |
| LocationSearch.FilterLocations | src/components/Locations/LocationSearch.tsx:16-32 | a blank query keeps the list; otherwise every kept location is from the list and matches the lower-cased trimmed query |
| LocationSearch.BlankQueryKeepsAll | src/components/Locations/LocationSearch.tsx:17-19 | a blank query returns the list unchanged |
| LocationSearch.FilterKeepsOrder | src/components/Locations/LocationSearch.tsx:16-32 | the result is a subsequence of the input |
| LocationSearch.FilterMembership | src/components/Locations/LocationSearch.tsx:21-31 | a location is kept exactly when the lower-cased trimmed query occurs in its lower-cased name, address, a feature or owner name |
| LocationSearch.MissingOwnerNeverMatches | src/components/Locations/LocationSearch.tsx:28 | without an owner name only name, address or features can match |
| LocationSearch.FirstMatch | src/components/Locations/LocationSearch.tsx:42 | the leftmost case-insensitive occurrence at or after a position, or none |
| LocationSearch.SplitKeep | src/components/Locations/LocationSearch.tsx:42 | the split with its capture group has an odd number of parts (concatenation, parity and separation are the three lemmas below) |
| LocationSearch.HighlightText | src/components/Locations/LocationSearch.tsx:35-53 | a blank query gives the text as one plain piece; otherwise an odd number of pieces, each highlighted one equal to the query up to case |
| LocationSearch.SplitKeepConcat | src/components/Locations/LocationSearch.tsx:42 | the parts put back together are the text |
| LocationSearch.FirstPieceDiffers | src/components/Locations/LocationSearch.tsx:42-44 | the piece before the first match is not equal to the query up to case |
| LocationSearch.SplitKeepParity | src/components/Locations/LocationSearch.tsx:42-44 | a part equals the query up to case exactly when it is a captured match |
| LocationSearch.PrefixHasNoMatch | src/components/Locations/LocationSearch.tsx:42 | the piece before the first match contains no match |
| LocationSearch.SplitKeepPlainHasNoMatch | src/components/Locations/LocationSearch.tsx:42 | no piece between matches contains a case-insensitive occurrence of the query, so every occurrence is captured |
| LocationSearch.HighlightRoundTrip | src/components/Locations/LocationSearch.tsx:35-53 | the rendered pieces read back as the text; for a non-blank query a piece is highlighted exactly when it is a match, and an unhighlighted piece contains no occurrence of the query |
| TableOfContentsView.ScrollOffset | src/components/blog/TableOfContents.tsx:23-26 | 450 below a width of 1024, 100 otherwise or without a window |
| TableOfContentsView.LatestUnique | src/components/blog/TableOfContents.tsx:36-47 | at most one heading is the latest passed one |
| TableOfContentsView.ClosestUnique | src/components/blog/TableOfContents.tsx:116-128 | at most one heading is the closest one |
| TableOfContentsView.TocState.constructor | src/components/blog/TableOfContents.tsx:16-18 | no active id, not scrolling, closed |
| TableOfContentsView.TocState.FindActiveHeading | src/components/blog/TableOfContents.tsx:29-52 | does nothing while scrolling; otherwise highlights the passed heading with the greatest top, the earlier on a tie, and keeps the highlight when none has passed |
| TableOfContentsView.TocState.LinkClick | src/components/blog/TableOfContents.tsx:90-104 | the item is highlighted and scrolling paused; with its element the scroll target is its top less the offset and the dropdown closes |
| TableOfContentsView.TocState.AfterClickScroll | src/components/blog/TableOfContents.tsx:106-134 | scrolling resumes and the heading nearest the viewport top is highlighted, the earlier on a tie |
| TableOfContentsView.TocState.ToggleOpen | src/components/blog/TableOfContents.tsx:202 | the dropdown flips |
| TableOfContentsView.TocList | src/components/blog/TableOfContents.tsx:74-165 | nothing is rendered exactly when there are no items |
| TableOfContentsView.GeneratedTocListed | src/components/blog/TableOfContents.tsx:141-152 | every generated entry is listed, in order, and at most one is marked active |
| AuthContext.ProviderFields | src/contexts/AuthContext.tsx:16-23 | provider is 'google' exactly when either metadata says so, else 'email'; googleId is null unless google, then `sub \|\| google_id \|\| user.id` |
| AuthContext.NameChains | src/contexts/AuthContext.tsx:25-29 | each name is the first truthy alias, else ''; the picture the first truthy alias, else null |
| AuthContext.SyncBodyOf | src/contexts/AuthContext.tsx:13-47 | the body carries the user's id and email, and the provider "google" and a google id exactly for a google sign-in |
| AuthContext.SyncBodyAtEndpoint | src/contexts/AuthContext.tsx:31-47 | the posted body has string names, an id truthy exactly for a non-empty id, a present provider, and a google id exactly for google sign-ins |
| AuthContext.SecondSignInKeepsProfile | src/contexts/AuthContext.tsx:131-138 | signing in again with the same metadata assigns neither full_name nor profile_picture and keeps every column but `updated_at` |
| AuthContext.EventRequests | src/contexts/AuthContext.tsx:118-157 | at most two requests, only for a sign-in or sign-up with a user, the first being the sync of that user |
| AuthContext.EventGating | src/contexts/AuthContext.tsx:118-157 | requests only for SIGNED_IN/SIGNED_UP with a user, none for INITIAL_SESSION; the sync first, then the verification update exactly when the email is confirmed |
| AuthContext.VerifyPutAtEndpoint | src/contexts/AuthContext.tsx:141-152 | the verification update writes `email_verified = true` and the timestamp only |
| AuthContext.AuthState.constructor | src/contexts/AuthContext.tsx:90-95 | no user, no session, loading, mounted |
| AuthContext.AuthState.InitialSession | src/contexts/AuthContext.tsx:97-116 | after unmount nothing changes; otherwise loading stops and a session read records the session and its user, never a sync |
| AuthContext.AuthState.AuthStateChange | src/contexts/AuthContext.tsx:121-158 | ignored after unmount and for INITIAL_SESSION; otherwise records the session and sends exactly the gated requests |
| AuthContext.AuthState.SignOut | src/contexts/AuthContext.tsx:192-196 | both user and session are cleared |
| AuthContext.AuthState.Unmount | src/contexts/AuthContext.tsx:160-163 | the mounted flag is cleared and nothing else changes |
| StructuredData.ExtractText | src/components/blog/StructuredData.tsx:151-156 | "" for null, a string unchanged, otherwise the trimmed rendered text |
| StructuredData.ArticleSchema | src/components/blog/StructuredData.tsx:13-58 | a type and an author name are always set, the publisher is "FitGo", at most one image, and the page id is the post url |
| StructuredData.ArticleDefaults | src/components/blog/StructuredData.tsx:13-58 | type defaults to "Article"; description is meta description, else description text; `abstract` only for a non-empty snippet; image is the one-element list of the image url when it has one, else []; author name never empty, "FitGo" as fallback; author image only when truthy; page id is the post url |
| StructuredData.FaqSchema | src/components/blog/StructuredData.tsx:61-77 | null exactly for missing or empty FAQs, otherwise no more questions than FAQs |
| StructuredData.FaqSchemaKeepsComplete | src/components/blog/StructuredData.tsx:61-77 | null exactly for missing or empty FAQs; otherwise exactly the complete FAQs, in order |
| StructuredData.QaPageSchema | src/components/blog/StructuredData.tsx:80-97 | present only for a non-blank quick answer, which it carries as written under a non-empty question |
| StructuredData.QaPageWhenAnswered | src/components/blog/StructuredData.tsx:80-97 | present exactly when the quick answer is not blank, with the answer as written and "What is this about?" without a title |
| StructuredData.Breadcrumb | src/components/blog/StructuredData.tsx:100-123 | three items at positions 1, 2, 3, from the site url to the post url |
| StructuredData.BreadcrumbShape | src/components/blog/StructuredData.tsx:100-123 | three items at positions 1, 2, 3, each extending the last, ending at `siteUrl/blog/uid` |
| FaqSection.Cards | src/components/blog/FAQSection.tsx:31-34 | the cards rendered for a list never outnumber it and carry indices inside it |
| FaqSection.CardsFields | src/components/blog/FAQSection.tsx:31-34 | each card shows a complete FAQ's question and answer, and is open exactly when its index is the open one |
| FaqSection.CardsOrdered | src/components/blog/FAQSection.tsx:31 | the cards follow the list order |
| FaqSection.CardsComplete | src/components/blog/FAQSection.tsx:32 | every complete FAQ gets a card |
| FaqSection.FaqCards | src/components/blog/FAQSection.tsx:17-34 | nothing is rendered exactly for missing or empty FAQs |
| FaqSection.AtMostOneOpen | src/components/blog/FAQSection.tsx:33 | at most one card is open |
| FaqSection.CardsMatchFilter | src/components/blog/FAQSection.tsx:32 | the card questions are those of the complete FAQs, in order |
| FaqSection.CardsMatchSchema | src/components/blog/FAQSection.tsx:31-34 | the section and the FAQ schema list the same questions in the same order |
| FaqSection.Toggle | src/components/blog/FAQSection.tsx:21-23 | toggling the open index closes it, any other index opens that one |
| FaqSection.ToggleTwice | src/components/blog/FAQSection.tsx:21-23 | toggling twice from closed returns to closed |
| FaqSection.ToggleOpensOnlyThat | src/components/blog/FAQSection.tsx:21-23 | a toggle never opens another index |
| FaqSection.FaqState.constructor | src/components/blog/FAQSection.tsx:15 | nothing open at first |
| FaqSection.FaqState.ToggleFaq | src/components/blog/FAQSection.tsx:21-23 | the open index becomes the toggle of the old one |
| Sitemap.SitemapEntries | src/app/sitemap.ts:6-71 | four static entries plus the blog and location sections |
| Sitemap.Layout | src/app/sitemap.ts:39-70 | static pages, then blog pages, then location pages; a failed fetch empties only its own section |
| Sitemap.StaticPages | src/app/sitemap.ts:11-36 | four entries, the first the base url, all dated now, at priorities 1.0 down to 0.7 |
| Sitemap.StaticPagesShape | src/app/sitemap.ts:11-36 | exactly base, base/blog, base/locations, base/contact-us with their frequencies and priorities |
| Sitemap.BlogPages | src/app/sitemap.ts:39-53 | empty when the fetch throws, otherwise no more entries than posts, each weekly at 0.8 |
| Sitemap.BlogPagesContents | src/app/sitemap.ts:42-51 | entry i is the weekly 0.8 entry at `base/blog/slug` of the i-th post without a truthy noIndex, so the entries follow the fetched order; every such post is listed and no other; the current date exactly when publishDate is falsy |
| Sitemap.FetchedPostsAllListed | src/app/sitemap.ts:41-51 | every post `getAllBlogPosts` returns is listed, with the current date |
| Sitemap.LocationPages | src/app/sitemap.ts:56-67 | empty when the fetch throws, otherwise one entry per location, in order, at its `/locations/` url |
| Sitemap.LocationPagesContents | src/app/sitemap.ts:59-65 | one monthly entry at `base/locations/slug` per location |
| Sitemap.UrlForms | src/app/sitemap.ts:11-65 | blog and location urls never collide, each is injective in the slug, and none equals a static url |
| Sitemap.StaticUrlsDistinct | src/app/sitemap.ts:11-36 | the static urls are distinct |
| Sitemap.BlogUrlsDistinct | src/app/sitemap.ts:42-45 | distinct slugs give distinct blog urls |
| Sitemap.LocationUrlsDistinct | src/app/sitemap.ts:60-61 | distinct slugs give distinct location urls |
| Sitemap.UrlsUnique | src/app/sitemap.ts:70 | with distinct slugs no url appears twice |
| ReadingTime.FormatReadingTime | src/lib/utils/reading-time.ts:1-5 | "" exactly for missing or 0 minutes; otherwise the count in decimal (with "-" when negative) followed by " min read" |
| ReadingTime.OneMinuteIsGeneral | src/lib/utils/reading-time.ts:3-4 | the special case for 1 agrees with the general rule |
| ReadingTime.PositiveMinutesReadBack | src/lib/utils/reading-time.ts:4 | a positive count is written in decimal and reads back as itself |
| ReadingTime.FormatInjective | src/lib/utils/reading-time.ts:1-5 | different non-zero counts give different strings |
| ProfilePage.NameParts | src/app/profile/page.tsx:205-207 | splitting a trimmed name with a space gives at least two parts, the first starting with the name's first character and the last being what follows the last space |
| ProfilePage.Initials | src/app/profile/page.tsx:203-215 | one or two characters |
| ProfilePage.TwoInitials | src/app/profile/page.tsx:205-207 | the first and last parts of a trimmed name with a space are non-empty |
| ProfilePage.InitialsOfSeveralWords | src/app/profile/page.tsx:204-208 | the upper-cased first character of the trimmed name and the character after its last space |
| ProfilePage.InitialsOfOneWord | src/app/profile/page.tsx:209 | the upper-cased first character of the untrimmed name |
| ProfilePage.InitialsWithoutName | src/app/profile/page.tsx:211-214 | without a name the email's first character upper-cased, "?" without either |
| ProfilePage.AvatarUrl | src/app/profile/page.tsx:217-230 | the avatar is truthy or null, and a pending preview always wins |
| ProfilePage.AvatarPriority | src/app/profile/page.tsx:217-230 | the first truthy of preview, stored picture, avatar_url, picture; null when none |
| ProfilePage.AvatarFallsBackToSyncedPicture | src/app/profile/page.tsx:226-227 | before a picture is stored, the avatar is the picture the sign-in sync sent |
| ProfilePage.NameEditAtEndpoint | src/app/profile/page.tsx:94-97 | a name-only PUT writes the name and `updated_at` only |
| ProfilePage.SaveNameBody | src/app/profile/page.tsx:94-97 | the body names the user and carries the trimmed name, or null when blank, and neither a picture nor a verification flag |
| ProfilePage.SavedNameValue | src/app/profile/page.tsx:96 | a trimmed name is stored as sent, a blank one as null |
| ProfilePage.SavedNameAtEndpoint | src/app/profile/page.tsx:96 | saving stores the trimmed name, or null when blank, and changes nothing else but `updated_at` |
| ProfilePage.UploadError | src/app/profile/page.tsx:134-144 | accepted exactly for an `image/` type of at most 5 MiB; the type check comes first |
| ProfilePage.ProfileView.constructor | src/app/profile/page.tsx:27-34 | the page's initial state |
| ProfilePage.ProfileView.ProfileLoaded | src/app/profile/page.tsx:46-66 | loading stops; a profile fills the name field; an error or a throw sets the message |
| ProfilePage.ProfileView.EditName | src/app/profile/page.tsx:74-77 | editing starts with the stored name or '' |
| ProfilePage.ProfileView.CancelEditName | src/app/profile/page.tsx:79-82 | editing stops and the field returns to the stored name or '' |
| ProfilePage.ProfileView.SaveName | src/app/profile/page.tsx:84-98 | no request without a user or profile; otherwise saving starts and the normalised body is sent |
| ProfilePage.ProfileView.SaveNameReply | src/app/profile/page.tsx:100-116 | saving stops; a returned row replaces the profile and ends editing; otherwise the error message |
| ProfilePage.ProfileView.ImageChange | src/app/profile/page.tsx:130-176 | a request exactly for a file that passes the checks with a user and a profile; a failed check only sets its message |
| ProfilePage.ProfileView.ImageReply | src/app/profile/page.tsx:178-200 | the preview is dropped whatever the answer; a returned row replaces the profile |
| ProfilePage.UploadedPictureAtEndpoint | src/app/profile/page.tsx:172-175 | the uploaded data URL is stored as sent and nothing else but `updated_at` changes |
| Navbar.InitialsAsWritten | src/components/Navbar.tsx:59-68 | the navigation bar's rule throws exactly when there is neither a name nor an email |
| Navbar.InitialsThrowWithoutEmail | src/components/Navbar.tsx:67 | a user with no stored name and no email makes it throw |
| Navbar.Initials | src/components/Navbar.tsx:59-68 | the corrected rule gives one or two characters |
| Navbar.InitialsAgree | src/components/Navbar.tsx:60-67 | the corrected rule agrees with the code wherever the code does not throw, and gives "?" where it does |
| Navbar.AvatarUrl | src/components/Navbar.tsx:70-80 | the avatar is truthy or null, and a stored picture always wins |
| Navbar.AvatarAgreesWithProfilePage | src/components/Navbar.tsx:70-80 | the bar's avatar is the profile page's without a preview: stored picture, avatar_url, picture, else null |
| Navbar.BadgeOf | src/components/Navbar.tsx:151-160 | with the corrected initials rule of the Findings row: the avatar exactly when its url is truthy, else one or two initials ("?" where the code as written throws) |
| Navbar.BadgeAsWritten | src/components/Navbar.tsx:151-160 | the entry as written: the avatar exactly when its url is truthy, else one or two initials, or the throw |
| Navbar.BadgeThrowsOnlyWithoutEmail | src/components/Navbar.tsx:151-160 | the entry throws exactly without an avatar, a stored name and an email, and otherwise shows what the corrected entry shows |
| Navbar.NavbarState.constructor | src/components/Navbar.tsx:17-19 | menu closed, not scrolled, no profile |
| Navbar.NavbarState.HandleScroll | src/components/Navbar.tsx:22-25 | scrolled exactly when `scrollY > 10` |
| Navbar.NavbarState.ToggleMenu | src/components/Navbar.tsx:181 | the menu flips |
| Navbar.NavbarState.ProfileFetched | src/components/Navbar.tsx:36-39 | a returned user replaces the profile, otherwise the old one stays |
| Js.Trim | src/lib/utils/toc-generator.ts:194-195 | `trim()` leaves no whitespace at either end (what it drops is stated by Js.TrimFacts) |
| Js.TrimFacts | src/lib/utils/toc-generator.ts:194-195 | the trim is a contiguous piece of the input, every character before and after that piece is whitespace, and the trim is empty exactly when the input is all whitespace |
| Js.ContainsIff | src/components/Locations/LocationSearch.tsx:23-28 | `includes` holds exactly when the piece occurs somewhere |
| Js.SplitJoin | src/app/profile/page.tsx:205 | `split(' ')` loses nothing: joining with the separator gives the input back |
| Js.SplitCount | src/app/profile/page.tsx:206 | at least two parts exactly when the separator occurs |
| Js.IntToString | src/lib/utils/reading-time.ts:4 | `${n}`: the decimal digits, with '-' for negatives |
| Js.ParseNatToString | src/lib/utils/toc-generator.ts:139-141 | reading back the decimal digits of n gives n |

## Left out

- I/O is left out: the store's select, insert and update calls, the CMS fetches, and the `fetch` requests between the pages and the endpoint. Their replies are inputs and their requests are outputs.
- ProfileSync.Post does not model a store error on the insert or the update, or a thrown request. Each is a 500 whose contents come from the store.
- Concurrency is left out: React's deferred state updates, effects, timers, event listeners, and the race between near-simultaneous syncs. A handler's updates take effect when it returns.
- `asText`, `asHTML` and `asImageSrc` are not interpreted. Their results are strings carried by the documents.
- The HTML fallback of `extractListItems` (lines 64-84) is not modelled. Its result is an input that is used only when the walk finds no item.
- LocationData.TransformDefaults covers integer coordinates only, because floating point is out of scope. `toFixed(4)` of an integer is written as the integer followed by ".0000". NaN and fractional values are not modelled.
- Dates are left out. `new Date()`, `toISOString` and `toLocaleDateString` become opaque strings or the `CurrentDate` marker.
- The sitemap priorities are kept in tenths, because floating point is out of scope.
- DOM geometry, `scrollTo`, `getElementById`, FileReader and base64 conversion, and `window.dispatchEvent` are inputs or are left out.
- Navbar.BadgeOf shows the corrected initials rule of the Findings row, so it gives "?" where the bar as written throws. Navbar.BadgeAsWritten is the entry as written.
- ProfilePage.ProfileView.ImageChange sets the preview at once. In the page it arrives when the first reader finishes.
- JSON serialisation of the schemas and the request bodies is left out. Each schema is a record with the keys the page emits.
- `toLowerCase`, `toUpperCase` and the case-insensitive regex match are ASCII folds. Unicode case mapping is out of scope.
- The regex escape in `highlightText` is modelled by its effect: the pattern matches the query literally.
- `getBaseUrl` is not part of this model, and the site url is a parameter. The same holds for `NEXT_PUBLIC_SITE_URL`.
- JsValue has no arrays, objects, NaN or fractional numbers, so the sync body's fields hold only the value kinds the sign-in flow sends.
- ProfileSync.SyncIdempotent requires the names to be strings, as the sign-in flow sends them. A `0` or `false` name would be written without ever counting as stored.
- `signInWithMagicLink` and `signInWithGoogle` are left out because they only call the identity provider.
- Console logging is left out.
- The "No blog posts found" message and other presentational markup are left out. So are the files with no decision logic.

## Findings

| source | as written | input that shows it | evidently intended | confidence | as-written member | corrected member |
|---|---|---|---|---|---|---|
| src/components/Navbar.tsx:59-68 | without a name, `getInitials` returns `email[0].toUpperCase()`, and the caller passes `user.email \|\| ''` (line 159), so an empty email reads `''[0]`, which is `undefined`, and throws a TypeError | a signed-in user with no stored `full_name`, no avatar and no email (name `null`, email `''`) | "?" as the profile page's `getInitials` gives (src/app/profile/page.tsx:211-214) | not executed | Navbar.InitialsThrowWithoutEmail | Navbar.InitialsAgree |
