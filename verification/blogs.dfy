/**
  * Blog posts and categories: the model-level validation (`clean`), the
  * SEO fallbacks, and the service functions that create, update, publish
  * and unpublish posts. Each service validates (`full_clean`) before it
  * saves; a validation error aborts the write, so the stored post is the
  * input's.
  * Dates, new preview tokens and the slug library are inputs.
  */
module Blogs {
  import opened Wrappers
  import opened BlogSlugs

  /** A calendar date, as a day number. */
  type Date = int

  /** A preview token (a UUID). */
  type Token = nat

  /** An author and whether they are staff. */
  datatype Author = Author(id: string, isStaff: bool)

  datatype Blog = Blog(
    title: string,
    slug: string,
    author: Option<Author>,
    summary: string,
    content: string,
    metaTitle: string,
    metaDescription: string,
    featuredImage: Option<string>,
    ogImage: Option<string>,
    canonicalUrl: string,
    published: bool,
    date: Option<Date>,
    previewToken: Option<Token>,
    categories: seq<string>)

  datatype Category = Category(name: string, slug: string, description: string)

  // ---------------------------------------------------------------------
  // clean
  // ---------------------------------------------------------------------

  /** Slugs that clash with the blog's URL patterns. */
  const ReservedSlugs: set<string> := {"category", "preview"}

  const MaxMetaTitle: nat := 60
  const MaxMetaDescription: nat := 160

  function LowerChar(c: char): (l: char)
    ensures 'A' <= c <= 'Z' ==> 'a' <= l <= 'z'
    ensures !('A' <= c <= 'Z') ==> l == c
  {
    if 'A' <= c <= 'Z' then (c as int + 32) as char else c
  }

  /** `str.lower()` on the ASCII letters, the only ones the reserved slugs contain. */
  function Lower(s: string): (r: string)
    ensures |r| == |s|
    ensures forall i :: 0 <= i < |s| ==> r[i] == LowerChar(s[i])
  {
    if s == [] then [] else [LowerChar(s[0])] + Lower(s[1..])
  }

  /** A non-empty slug whose lowercase form is reserved. */
  predicate IsReserved(slug: string)
  {
    slug != "" && Lower(slug) in ReservedSlugs
  }

  datatype BlogError =
    | ReservedSlug | AuthorNotStaff | MetaTitleTooLong | MetaDescriptionTooLong
    | TitleBlank | TitleTooLong | ContentBlank | AuthorMissing | NameBlank | NameTooLong
    | DuplicateTitle | DuplicateName

  const MaxTitle: nat := 200
  const MaxCategoryName: nat := 100

  /**
    * `Blog.clean`: the checks in source order, the first failing one
    * reported; `None` when the post passes.
    */
  function CleanBlog(b: Blog): (r: Option<BlogError>)
    ensures r.None? <==>
      !IsReserved(b.slug) && (b.author.Some? ==> b.author.value.isStaff) &&
      |b.metaTitle| <= MaxMetaTitle && |b.metaDescription| <= MaxMetaDescription
    ensures r == Some(ReservedSlug) <==> IsReserved(b.slug)
    ensures r == Some(AuthorNotStaff) <==> !IsReserved(b.slug) && b.author.Some? && !b.author.value.isStaff
    ensures r == Some(MetaTitleTooLong) ==> |b.metaTitle| > MaxMetaTitle
    ensures r == Some(MetaDescriptionTooLong) ==> |b.metaDescription| > MaxMetaDescription
  {
    if IsReserved(b.slug) then Some(ReservedSlug)
    else if b.author.Some? && !b.author.value.isStaff then Some(AuthorNotStaff)
    else if b.metaTitle != "" && |b.metaTitle| > MaxMetaTitle then Some(MetaTitleTooLong)
    else if b.metaDescription != "" && |b.metaDescription| > MaxMetaDescription then Some(MetaDescriptionTooLong)
    else None
  }

  /** `BlogCategory.clean`: only the reserved-slug check. */
  function CleanCategory(c: Category): (r: Option<BlogError>)
    ensures r.None? <==> !IsReserved(c.slug)
    ensures r.Some? ==> r.value == ReservedSlug
  {
    if IsReserved(c.slug) then Some(ReservedSlug) else None
  }

  /**
    * The field checks of `clean_fields` on a post that the model covers:
    * `title` is required and at most 200 characters, `content` is
    * required, and the post has an author.
    */
  function BlogFieldError(b: Blog): (r: Option<BlogError>)
    ensures r.None? <==> b.title != "" && |b.title| <= MaxTitle && b.content != "" && b.author.Some?
  {
    if b.title == "" then Some(TitleBlank)
    else if |b.title| > MaxTitle then Some(TitleTooLong)
    else if b.content == "" then Some(ContentBlank)
    else if b.author.None? then Some(AuthorMissing)
    else None
  }

  /** The field checks of `clean_fields` on a category: `name` is required and at most 100 characters. */
  function CategoryFieldError(c: Category): (r: Option<BlogError>)
    ensures r.None? <==> c.name != "" && |c.name| <= MaxCategoryName
  {
    if c.name == "" then Some(NameBlank)
    else if |c.name| > MaxCategoryName then Some(NameTooLong)
    else None
  }

  /**
    * `full_clean` on a post: the covered field checks, `clean`'s rules, and
    * the unique check on `title` against `otherTitles`, the titles of the
    * other stored posts. Django collects every error; the model reports
    * one, `clean`'s first, which the services treat like any other.
    */
  function FullCleanBlog(b: Blog, otherTitles: set<string>): (r: Option<BlogError>)
    ensures r.None? <==> CleanBlog(b).None? && BlogFieldError(b).None? && b.title !in otherTitles
    ensures CleanBlog(b).Some? ==> r == CleanBlog(b)
    ensures CleanBlog(b).None? && BlogFieldError(b).Some? ==> r == BlogFieldError(b)
    ensures r == Some(DuplicateTitle) <==> CleanBlog(b).None? && BlogFieldError(b).None? && b.title in otherTitles
  {
    if CleanBlog(b).Some? then CleanBlog(b)
    else if BlogFieldError(b).Some? then BlogFieldError(b)
    else if b.title in otherTitles then Some(DuplicateTitle)
    else None
  }

  /**
    * `full_clean` on a category: `clean`'s rule, the name's field checks,
    * and the unique check on `name` against `otherNames`, the names of the
    * other stored categories.
    */
  function FullCleanCategory(c: Category, otherNames: set<string>): (r: Option<BlogError>)
    ensures r.None? <==> !IsReserved(c.slug) && CategoryFieldError(c).None? && c.name !in otherNames
    ensures r == Some(ReservedSlug) <==> IsReserved(c.slug)
    ensures !IsReserved(c.slug) && CategoryFieldError(c).Some? ==> r == CategoryFieldError(c)
    ensures r == Some(DuplicateName) <==> !IsReserved(c.slug) && CategoryFieldError(c).None? && c.name in otherNames
  {
    if CleanCategory(c).Some? then CleanCategory(c)
    else if CategoryFieldError(c).Some? then CategoryFieldError(c)
    else if c.name in otherNames then Some(DuplicateName)
    else None
  }

  /** The reserved check ignores case: a slug is reserved exactly when its lowercase form is. */
  lemma ReservedIgnoresCase(slug: string)
    ensures IsReserved(slug) <==> IsReserved(Lower(slug))
  {
    assert Lower(Lower(slug)) == Lower(slug);
  }

  /** The same slug is rejected as a post's and as a category's. */
  lemma SameReservedRule(b: Blog, c: Category)
    requires b.slug == c.slug
    ensures CleanBlog(b) == Some(ReservedSlug) <==> CleanCategory(c) == Some(ReservedSlug)
  {
  }

  // ---------------------------------------------------------------------
  // get_meta_title, get_meta_description
  // ---------------------------------------------------------------------

  /** `get_meta_title`: the meta title, or the title when it is empty. */
  function MetaTitle(b: Blog): (r: string)
    ensures b.metaTitle != "" ==> r == b.metaTitle
    ensures b.metaTitle == "" ==> r == b.title
    ensures r == "" ==> b.metaTitle == "" && b.title == ""
  {
    if b.metaTitle != "" then b.metaTitle else b.title
  }

  /** `get_meta_description`: the meta description, or the summary when it is empty. */
  function MetaDescription(b: Blog): (r: string)
    ensures b.metaDescription != "" ==> r == b.metaDescription
    ensures b.metaDescription == "" ==> r == b.summary
  {
    if b.metaDescription != "" then b.metaDescription else b.summary
  }

  /**
    * For a post that passes `clean`, the SEO title is either within the
    * meta title's limit or the fallback to the post's title, and the SEO
    * description either within its limit or the fallback to the summary.
    */
  lemma CleanMetaWithinLimits(b: Blog)
    requires CleanBlog(b).None?
    ensures b.metaTitle != "" ==> |MetaTitle(b)| <= MaxMetaTitle
    ensures b.metaDescription != "" ==> |MetaDescription(b)| <= MaxMetaDescription
    ensures |MetaTitle(b)| <= MaxMetaTitle || (b.metaTitle == "" && MetaTitle(b) == b.title)
    ensures |MetaDescription(b)| <= MaxMetaDescription || (b.metaDescription == "" && MetaDescription(b) == b.summary)
  {
  }

  // ---------------------------------------------------------------------
  // ensure_preview_token, regenerate_preview_token
  // ---------------------------------------------------------------------

  /** `ensure_preview_token`: sets `newToken` only when the post has no token. */
  function EnsurePreviewToken(b: Blog, newToken: Token): (r: Blog)
    ensures r.previewToken.Some?
    ensures b.previewToken.Some? ==> r == b
    ensures b.previewToken.None? ==> r == b.(previewToken := Some(newToken))
  {
    if b.previewToken.None? then b.(previewToken := Some(newToken)) else b
  }

  /** A second call keeps the first call's token, whatever token it is offered. */
  lemma EnsurePreviewTokenIdempotent(b: Blog, t1: Token, t2: Token)
    ensures EnsurePreviewToken(EnsurePreviewToken(b, t1), t2) == EnsurePreviewToken(b, t1)
  {
  }

  /** `regenerate_preview_token`: always the new token, then validation. */
  function RegeneratePreviewToken(b: Blog, newToken: Token, otherTitles: set<string>): (r: Result<Blog, BlogError>)
    ensures r.Success? <==> FullCleanBlog(b, otherTitles).None?
    ensures r.Success? ==> r.value.previewToken == Some(newToken) && r.value.(previewToken := b.previewToken) == b
  {
    var b' := b.(previewToken := Some(newToken));
    match FullCleanBlog(b', otherTitles)
    case Some(e) => Failure(e)
    case None => Success(b')
  }

  // ---------------------------------------------------------------------
  // create_blog_post
  // ---------------------------------------------------------------------

  /** The caller-supplied fields of a new post. */
  datatype NewPost = NewPost(
    title: string,
    author: Author,
    content: string,
    summary: string,
    metaDescription: string,
    metaTitle: string,
    featuredImage: Option<string>,
    ogImage: Option<string>,
    canonicalUrl: string,
    published: bool,
    publicationDate: Option<Date>,
    categories: Option<seq<string>>)

  /** The publication date a new post gets: the given one, else today when published. */
  function NewPostDate(p: NewPost, today: Date): (r: Option<Date>)
    ensures p.publicationDate.Some? ==> r == p.publicationDate
    ensures p.publicationDate.None? && p.published ==> r == Some(today)
    ensures r.None? <==> p.publicationDate.None? && !p.published
  {
    if p.publicationDate.Some? then p.publicationDate else if p.published then Some(today) else None
  }

  /**
    * A post created published without a date gets the date publishing
    * gives it: the given day, else today. A published new post always has
    * a date.
    */
  lemma NewPostDateAsPublished(p: NewPost, today: Date, b: Blog, otherTitles: set<string>)
    requires p.published && FullCleanBlog(b, otherTitles).None?
    ensures NewPostDate(p, today).Some?
    ensures NewPostDate(p, today) == PublishBlogPost(b, p.publicationDate, today, otherTitles).value.blog.date
  {
  }

  /** A numbered slug contains a hyphen, so it is never reserved. */
  lemma SuffixedNotReserved(base: string, k: nat)
    ensures !IsReserved(Suffixed(base, k))
  {
    var s := Suffixed(base, k);
    assert Lower(s)[|base|] == '-';
    assert forall w :: w in ReservedSlugs ==> '-' !in w;
  }

  /** Whether the slug chosen for `title` is reserved: only when it is the free base slug itself. */
  predicate NewSlugReserved(title: string, slugify: string -> string, takenSlugs: set<string>)
  {
    slugify(title) !in takenSlugs && IsReserved(slugify(title))
  }

  lemma FreshSlugReserved(title: string, slugify: string -> string, takenSlugs: set<string>, slug: string)
    requires FirstFreeSlug(slugify(title), takenSlugs, slug)
    ensures IsReserved(slug) <==> NewSlugReserved(title, slugify, takenSlugs)
  {
    if slugify(title) in takenSlugs {
      var k: nat :| k >= 1 && slug == Suffixed(slugify(title), k) &&
                    forall j: nat :: 1 <= j < k ==> Suffixed(slugify(title), j) in takenSlugs;
      SuffixedNotReserved(slugify(title), k);
    }
  }

  /**
    * `create_blog_post`: a fresh slug from the title, the date rule, a
    * preview token for drafts, validation, then the categories when a
    * non-empty list is given.
    */
  method CreateBlogPost(p: NewPost, slugify: string -> string, takenSlugs: set<string>, today: Date, newToken: Token,
                        otherTitles: set<string>)
    returns (r: Result<Blog, BlogError>)
    ensures r.Failure? <==>
      || NewSlugReserved(p.title, slugify, takenSlugs)
      || !p.author.isStaff
      || |p.metaTitle| > MaxMetaTitle
      || |p.metaDescription| > MaxMetaDescription
      || p.title == "" || |p.title| > MaxTitle || p.content == ""
      || p.title in otherTitles
    ensures r.Failure? ==> (r.error == ReservedSlug <==> NewSlugReserved(p.title, slugify, takenSlugs))
    ensures r.Failure? ==>
      (r.error == DuplicateTitle <==>
        && !NewSlugReserved(p.title, slugify, takenSlugs) && p.author.isStaff
        && |p.metaTitle| <= MaxMetaTitle && |p.metaDescription| <= MaxMetaDescription
        && p.title != "" && |p.title| <= MaxTitle && p.content != ""
        && p.title in otherTitles)
    ensures r.Success? ==>
      && FirstFreeSlug(slugify(p.title), takenSlugs, r.value.slug)
      && r.value.title == p.title && r.value.author == Some(p.author)
      && r.value.content == p.content && r.value.summary == p.summary
      && r.value.metaTitle == p.metaTitle && r.value.metaDescription == p.metaDescription
      && r.value.featuredImage == p.featuredImage && r.value.ogImage == p.ogImage
      && r.value.canonicalUrl == p.canonicalUrl
      && r.value.published == p.published
      && r.value.date == NewPostDate(p, today)
      && (r.value.previewToken.Some? <==> !p.published)
      && (!p.published ==> r.value.previewToken == Some(newToken))
      && (p.categories.Some? && p.categories.value != [] ==> r.value.categories == p.categories.value)
      && (p.categories.None? || p.categories.value == [] ==> r.value.categories == [])
  {
    var slug := GenerateUniqueSlug(p.title, slugify, takenSlugs);
    FreshSlugReserved(p.title, slugify, takenSlugs, slug);
    var b := Blog(p.title, slug, Some(p.author), p.summary, p.content, p.metaTitle, p.metaDescription,
                  p.featuredImage, p.ogImage, p.canonicalUrl, p.published, NewPostDate(p, today), None, []);
    if !p.published {
      b := EnsurePreviewToken(b, newToken);
    }
    match FullCleanBlog(b, otherTitles)
    case Some(e) =>
      r := Failure(e);
    case None =>
      if p.categories.Some? && p.categories.value != [] {
        b := b.(categories := p.categories.value);
      }
      r := Success(b);
  }

  // ---------------------------------------------------------------------
  // Partial saves
  // ---------------------------------------------------------------------

  /** The stored columns of a post, by name. */
  const BlogFields: set<string> := {"title", "slug", "author", "summary", "content", "meta_title",
    "meta_description", "featured_image", "og_image", "canonical_url", "published", "date", "preview_token"}

  /** Whether `a` and `b` agree on the column `name`. */
  predicate SameField(a: Blog, b: Blog, name: string)
  {
    match name
    case "title" => a.title == b.title
    case "slug" => a.slug == b.slug
    case "author" => a.author == b.author
    case "summary" => a.summary == b.summary
    case "content" => a.content == b.content
    case "meta_title" => a.metaTitle == b.metaTitle
    case "meta_description" => a.metaDescription == b.metaDescription
    case "featured_image" => a.featuredImage == b.featuredImage
    case "og_image" => a.ogImage == b.ogImage
    case "canonical_url" => a.canonicalUrl == b.canonicalUrl
    case "published" => a.published == b.published
    case "date" => a.date == b.date
    case "preview_token" => a.previewToken == b.previewToken
    case _ => true
  }

  /**
    * A `save(update_fields=fields)` of `after` over `before` stores every
    * change: each column outside `fields` is unchanged.
    */
  predicate SavesAllChanges(before: Blog, after: Blog, fields: seq<string>)
  {
    forall name :: name in BlogFields && name !in fields ==> SameField(before, after, name)
  }

  /** A validated write: the post as saved, and the columns the save names. */
  datatype Saved = Saved(blog: Blog, updateFields: seq<string>)

  // ---------------------------------------------------------------------
  // update_blog_post
  // ---------------------------------------------------------------------

  /** The optional arguments of `update_blog_post`; `None` leaves a field alone. */
  datatype BlogPatch = BlogPatch(
    title: Option<string>,
    content: Option<string>,
    summary: Option<string>,
    metaDescription: Option<string>,
    metaTitle: Option<string>,
    featuredImage: Option<string>,
    ogImage: Option<string>,
    canonicalUrl: Option<string>,
    categories: Option<seq<string>>)

  predicate RetitlesPost(b: Blog, patch: BlogPatch)
  {
    patch.title.Some? && patch.title.value != b.title
  }

  /** The columns the update names besides `updated_at`, in source order. */
  function PatchedFields(b: Blog, patch: BlogPatch): seq<string>
  {
    (if RetitlesPost(b, patch) then ["title", "slug"] else [])
    + (if patch.content.Some? then ["content"] else [])
    + (if patch.summary.Some? then ["summary"] else [])
    + (if patch.metaDescription.Some? then ["meta_description"] else [])
    + (if patch.metaTitle.Some? then ["meta_title"] else [])
    + (if patch.featuredImage.Some? then ["featured_image"] else [])
    + (if patch.ogImage.Some? then ["og_image"] else [])
    + (if patch.canonicalUrl.Some? then ["canonical_url"] else [])
  }

  /** The columns an update names cover every column it changes. */
  lemma PatchedFieldsCoverChanges(b: Blog, patch: BlogPatch, after: Blog)
    requires !RetitlesPost(b, patch) ==> after.title == b.title && after.slug == b.slug
    requires patch.content.None? ==> after.content == b.content
    requires patch.summary.None? ==> after.summary == b.summary
    requires patch.metaDescription.None? ==> after.metaDescription == b.metaDescription
    requires patch.metaTitle.None? ==> after.metaTitle == b.metaTitle
    requires patch.featuredImage.None? ==> after.featuredImage == b.featuredImage
    requires patch.ogImage.None? ==> after.ogImage == b.ogImage
    requires patch.canonicalUrl.None? ==> after.canonicalUrl == b.canonicalUrl
    requires after.author == b.author && after.published == b.published
    requires after.date == b.date && after.previewToken == b.previewToken
    ensures SavesAllChanges(b, after, ["updated_at"] + PatchedFields(b, patch))
  {
    var fields := ["updated_at"] + PatchedFields(b, patch);
    forall name | name in BlogFields && name !in fields ensures SameField(b, after, name) {
      if RetitlesPost(b, patch) {
        assert "title" in fields && "slug" in fields;
      }
      if patch.content.Some? { assert "content" in fields; }
      if patch.summary.Some? { assert "summary" in fields; }
      if patch.metaDescription.Some? { assert "meta_description" in fields; }
      if patch.metaTitle.Some? { assert "meta_title" in fields; }
      if patch.featuredImage.Some? { assert "featured_image" in fields; }
      if patch.ogImage.Some? { assert "og_image" in fields; }
      if patch.canonicalUrl.Some? { assert "canonical_url" in fields; }
    }
  }

  /**
    * `update_blog_post`: each given field is written; a changed title also
    * takes a fresh slug; the post is validated and saved with exactly the
    * written columns plus `updated_at`; given categories replace the old.
    * `otherTitles` are the titles of the stored posts other than `b`.
    */
  method UpdateBlogPost(b: Blog, patch: BlogPatch, slugify: string -> string, takenSlugs: set<string>,
                        otherTitles: set<string>)
    returns (r: Result<Saved, BlogError>)
    ensures r.Failure? <==>
      || (if RetitlesPost(b, patch) then NewSlugReserved(patch.title.value, slugify, takenSlugs) else IsReserved(b.slug))
      || (b.author.Some? && !b.author.value.isStaff)
      || |patch.metaTitle.GetOr(b.metaTitle)| > MaxMetaTitle
      || |patch.metaDescription.GetOr(b.metaDescription)| > MaxMetaDescription
      || patch.title.GetOr(b.title) == "" || |patch.title.GetOr(b.title)| > MaxTitle
      || patch.content.GetOr(b.content) == "" || b.author.None?
      || patch.title.GetOr(b.title) in otherTitles
    ensures r.Success? ==>
      var after := r.value.blog;
      && |r.value.updateFields| > 0 && r.value.updateFields[0] == "updated_at"
      && SavesAllChanges(b, after, r.value.updateFields)
      && (RetitlesPost(b, patch) ==> after.title == patch.title.value &&
                                     FirstFreeSlug(slugify(patch.title.value), takenSlugs, after.slug))
      && (!RetitlesPost(b, patch) ==> after.title == b.title && after.slug == b.slug)
      && after.content == patch.content.GetOr(b.content)
      && after.summary == patch.summary.GetOr(b.summary)
      && after.metaDescription == patch.metaDescription.GetOr(b.metaDescription)
      && after.metaTitle == patch.metaTitle.GetOr(b.metaTitle)
      && after.featuredImage == (if patch.featuredImage.Some? then patch.featuredImage else b.featuredImage)
      && after.ogImage == (if patch.ogImage.Some? then patch.ogImage else b.ogImage)
      && after.canonicalUrl == patch.canonicalUrl.GetOr(b.canonicalUrl)
      && after.categories == patch.categories.GetOr(b.categories)
      && after.author == b.author && after.published == b.published
      && after.date == b.date && after.previewToken == b.previewToken
  {
    var title, slug := b.title, b.slug;
    if RetitlesPost(b, patch) {
      title := patch.title.value;
      slug := GenerateUniqueSlug(title, slugify, takenSlugs);
      FreshSlugReserved(title, slugify, takenSlugs, slug);
    }
    var after := b.(
      title := title,
      slug := slug,
      content := patch.content.GetOr(b.content),
      summary := patch.summary.GetOr(b.summary),
      metaDescription := patch.metaDescription.GetOr(b.metaDescription),
      metaTitle := patch.metaTitle.GetOr(b.metaTitle),
      featuredImage := if patch.featuredImage.Some? then patch.featuredImage else b.featuredImage,
      ogImage := if patch.ogImage.Some? then patch.ogImage else b.ogImage,
      canonicalUrl := patch.canonicalUrl.GetOr(b.canonicalUrl),
      categories := patch.categories.GetOr(b.categories));
    var fields := ["updated_at"] + PatchedFields(b, patch);
    PatchedFieldsCoverChanges(b, patch, after);
    var check := FullCleanBlog(after, otherTitles);
    if check.Some? {
      r := Failure(check.value);
    } else {
      r := Success(Saved(after, fields));
    }
  }

  // ---------------------------------------------------------------------
  // publish_blog_post, unpublish_blog_post
  // ---------------------------------------------------------------------

  /** `publish_blog_post`: published, dated the given day or today, validated. */
  function PublishBlogPost(b: Blog, publicationDate: Option<Date>, today: Date, otherTitles: set<string>)
    : (r: Result<Saved, BlogError>)
    ensures r.Success? <==> FullCleanBlog(b, otherTitles).None?
    ensures r.Success? ==>
      && r.value.blog.published
      && r.value.blog.date == Some(publicationDate.GetOr(today))
      && r.value.blog.(published := b.published, date := b.date) == b
      && SavesAllChanges(b, r.value.blog, r.value.updateFields)
      && "updated_at" in r.value.updateFields
  {
    var after := b.(published := true, date := Some(publicationDate.GetOr(today)));
    match FullCleanBlog(after, otherTitles)
    case Some(e) => Failure(e)
    case None => Success(Saved(after, ["published", "date", "updated_at"]))
  }

  /** `unpublish_blog_post`: unpublished, the date kept, a preview token guaranteed. */
  function UnpublishBlogPost(b: Blog, newToken: Token, otherTitles: set<string>): (r: Result<Saved, BlogError>)
    ensures r.Success? <==> FullCleanBlog(b, otherTitles).None?
    ensures r.Success? ==>
      && !r.value.blog.published
      && r.value.blog.date == b.date
      && r.value.blog.previewToken.Some?
      && (b.previewToken.Some? ==> r.value.blog.previewToken == b.previewToken)
      && r.value.blog.(published := b.published, previewToken := b.previewToken) == b
      && SavesAllChanges(b, r.value.blog, r.value.updateFields)
      && "updated_at" in r.value.updateFields
  {
    var after := EnsurePreviewToken(b.(published := false), newToken);
    match FullCleanBlog(after, otherTitles)
    case Some(e) => Failure(e)
    case None => Success(Saved(after, ["published", "preview_token", "updated_at"]))
  }

  /**
    * Unpublishing a published post restores draft state with the same
    * date, and keeps whatever preview token it had.
    */
  lemma PublishThenUnpublish(b: Blog, d: Option<Date>, today: Date, newToken: Token, otherTitles: set<string>)
    requires FullCleanBlog(b, otherTitles).None?
    ensures var p := PublishBlogPost(b, d, today, otherTitles).value.blog;
      var u := UnpublishBlogPost(p, newToken, otherTitles);
      && u.Success?
      && !u.value.blog.published
      && u.value.blog.date == Some(d.GetOr(today))
      && u.value.blog.previewToken == EnsurePreviewToken(b, newToken).previewToken
  {
  }

  /** Unpublishing twice is unpublishing once. */
  lemma UnpublishIdempotent(b: Blog, t1: Token, t2: Token, otherTitles: set<string>)
    requires UnpublishBlogPost(b, t1, otherTitles).Success?
    ensures var u := UnpublishBlogPost(b, t1, otherTitles).value.blog;
      UnpublishBlogPost(u, t2, otherTitles).value.blog == u
  {
  }

  /**
    * A regenerated token replaces any different old one, so a preview
    * link with the old token stops matching the post; ensuring a token or
    * unpublishing afterwards keeps the regenerated one.
    */
  lemma RegeneratedTokenSticks(b: Blog, newToken: Token, t: Token, otherTitles: set<string>)
    requires RegeneratePreviewToken(b, newToken, otherTitles).Success?
    ensures var g := RegeneratePreviewToken(b, newToken, otherTitles).value;
      && (g.previewToken == b.previewToken <==> b.previewToken == Some(newToken))
      && EnsurePreviewToken(g, t) == g
      && UnpublishBlogPost(g, t, otherTitles).Success?
      && UnpublishBlogPost(g, t, otherTitles).value.blog.previewToken == Some(newToken)
  {
  }

  // ---------------------------------------------------------------------
  // create_blog_category, update_blog_category
  // ---------------------------------------------------------------------

  /** `create_blog_category`: a fresh slug from the name, then validation. */
  method CreateBlogCategory(name: string, description: string, slugify: string -> string, takenSlugs: set<string>,
                            otherNames: set<string>)
    returns (r: Result<Category, BlogError>)
    ensures r.Failure? <==>
      NewSlugReserved(name, slugify, takenSlugs) || name == "" || |name| > MaxCategoryName || name in otherNames
    ensures r.Failure? ==> (r.error == ReservedSlug <==> NewSlugReserved(name, slugify, takenSlugs))
    ensures r.Failure? ==>
      (r.error == DuplicateName <==>
        !NewSlugReserved(name, slugify, takenSlugs) && name != "" && |name| <= MaxCategoryName)
    ensures r.Success? ==>
      r.value.name == name && r.value.description == description &&
      FirstFreeSlug(slugify(name), takenSlugs, r.value.slug)
  {
    var slug := GenerateUniqueSlug(name, slugify, takenSlugs);
    FreshSlugReserved(name, slugify, takenSlugs, slug);
    var c := Category(name, slug, description);
    match FullCleanCategory(c, otherNames)
    case Some(e) =>
      r := Failure(e);
    case None =>
      r := Success(c);
  }

  /**
    * `update_blog_category`: a changed name takes a fresh slug; a given
    * description is written; validation, then the save's column list.
    * `otherNames` are the names of the stored categories other than `c`.
    */
  method UpdateBlogCategory(c: Category, name: Option<string>, description: Option<string>,
                            slugify: string -> string, takenSlugs: set<string>, otherNames: set<string>)
    returns (r: Result<(Category, seq<string>), BlogError>)
    ensures var renames := name.Some? && name.value != c.name;
      && (r.Failure? <==>
            || (if renames then NewSlugReserved(name.value, slugify, takenSlugs) else IsReserved(c.slug))
            || name.GetOr(c.name) == "" || |name.GetOr(c.name)| > MaxCategoryName
            || name.GetOr(c.name) in otherNames)
      && (r.Success? ==>
            && |r.value.1| > 0 && r.value.1[0] == "updated_at"
            && ("name" in r.value.1 <==> renames)
            && ("slug" in r.value.1 <==> renames)
            && ("description" in r.value.1 <==> description.Some?)
            && r.value.0.description == description.GetOr(c.description)
            && (renames ==> r.value.0.name == name.value && FirstFreeSlug(slugify(name.value), takenSlugs, r.value.0.slug))
            && (!renames ==> r.value.0.name == c.name && r.value.0.slug == c.slug))
  {
    var after := c;
    var fields := ["updated_at"];
    if name.Some? && name.value != c.name {
      var slug := GenerateUniqueSlug(name.value, slugify, takenSlugs);
      FreshSlugReserved(name.value, slugify, takenSlugs, slug);
      after := after.(name := name.value, slug := slug);
      fields := fields + ["name", "slug"];
    }
    if description.Some? {
      after := after.(description := description.value);
      fields := fields + ["description"];
    }
    match FullCleanCategory(after, otherNames)
    case Some(e) =>
      r := Failure(e);
    case None =>
      r := Success((after, fields));
  }
}
