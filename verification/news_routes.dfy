/**
 * The news handlers: the public paginated list and single-item read (which counts a
 * view), and the admin list, create, update and delete.
 */
module NewsRoutes {
  import opened Common
  import opened Collections
  import opened UserModel
  import opened NewsModel
  import opened Store
  import opened Paging

  datatype NewsError = ValidationFailed | NotFound | ServerError

  datatype NewsPage = NewsPage(news: seq<News>, pagination: Pagination)

  // ---------------------------------------------------------------- trimming

  /** The white space the model trims: space, tab, line feed, carriage return. */
  predicate IsSpace(c: char) {
    c == ' ' || c == '\t' || c == '\n' || c == '\r'
  }

  function TrimStart(s: string): (r: string)
    ensures |r| <= |s| && r == s[|s| - |r|..]
    ensures r == [] || !IsSpace(r[0])
    ensures forall k :: 0 <= k < |s| - |r| ==> IsSpace(s[k])
  {
    if |s| == 0 || !IsSpace(s[0]) then s else TrimStart(s[1..])
  }

  function TrimEnd(s: string): (r: string)
    ensures |r| <= |s| && r == s[..|r|]
    ensures r == [] || !IsSpace(r[|r| - 1])
    ensures forall k :: |r| <= k < |s| ==> IsSpace(s[k])
  {
    if |s| == 0 || !IsSpace(s[|s| - 1]) then s else TrimEnd(s[..|s| - 1])
  }

  /** r is s[a..a + |r|] and everything of s around it is white space. */
  ghost predicate TrimmedAt(s: string, r: string, a: nat) {
    && a + |r| <= |s|
    && r == s[a..a + |r|]
    && (forall k :: 0 <= k < a ==> IsSpace(s[k]))
    && (forall k :: a + |r| <= k < |s| ==> IsSpace(s[k]))
  }

  /** The `.trim()` sanitizer: the string without its leading and trailing white space. */
  function Trim(s: string): (r: string)
    ensures |r| <= |s|
    ensures r == [] || (!IsSpace(r[0]) && !IsSpace(r[|r| - 1]))
  {
    TrimEnd(TrimStart(s))
  }

  /** A prefix r of the suffix t = s[a..], with only white space before t and after r in t. */
  lemma Framing(s: string, t: string, r: string, a: nat)
    requires a <= |s| && t == s[a..] && |r| <= |t| && r == t[..|r|]
    requires forall k :: 0 <= k < a ==> IsSpace(s[k])
    requires forall k :: |r| <= k < |t| ==> IsSpace(t[k])
    ensures TrimmedAt(s, r, a)
  {
    assert r == s[a..a + |r|];
    forall k | a + |r| <= k < |s|
      ensures IsSpace(s[k])
    {
      assert s[k] == t[k - a];
    }
  }

  /** Trimming keeps one contiguous part of the string and removes only white space around it. */
  lemma TrimKeepsMiddle(s: string)
    ensures exists a :: TrimmedAt(s, Trim(s), a)
  {
    var t := TrimStart(s);
    var r := TrimEnd(t);
    Framing(s, t, r, |s| - |t|);
    assert TrimmedAt(s, Trim(s), |s| - |t|);
  }

  /** Trimming leaves nothing exactly when the string is all white space. */
  lemma TrimBlank(s: string)
    ensures Trim(s) == [] <==> forall k :: 0 <= k < |s| ==> IsSpace(s[k])
  {
    var t := TrimStart(s);
    if Trim(s) == [] {
      // TrimStart leaves t empty or starting with a non-space, which TrimEnd would keep
      assert t == [];
    }
  }

  /** A title of white space only passes the non-empty check but is blank once trimmed. */
  lemma BlankTitleAfterTrim()
    ensures Truthy(Some(" ")) && Trim(" ") == ""
  {
    TrimBlank(" ");
  }

  /** Trimming is idempotent. */
  lemma TrimIdempotent(s: string)
    ensures Trim(Trim(s)) == Trim(s)
  {
    var r := Trim(s);
    if r != [] {
      assert TrimStart(r) == r;
      assert TrimEnd(r) == r;
    }
  }

  // ---------------------------------------------------------------- listings

  /** The public list's query: published, and of the category when one is given. */
  predicate Listed(n: News, category: Option<string>) {
    n.isPublished && (!Truthy(category) || CategoryName(n.category) == category.value)
  }

  function PublishedAt(n: News): int {
    n.publishedAt
  }

  function CreatedAt(n: News): int {
    n.createdAt
  }

  /** GET /news: the published items (of the category, if given), newest publication first, one page of them. */
  function ListNews(news: seq<News>, page: Option<int>, limit: Option<int>, category: Option<string>)
    : (r: Result<NewsPage, NewsError>)
    ensures r == Err(ServerError) <==> Skip(page, limit) < 0
    ensures r.Ok? ==> r.value.pagination == Paginate(page, limit, Count(news, (n: News) => Listed(n, category)))
    ensures r.Ok? ==> IsPage(r.value.news, SortNewestFirst(Filter(news, (n: News) => Listed(n, category)), PublishedAt), page, limit)
    ensures r.Ok? ==> forall k :: 0 <= k < |r.value.news| ==> r.value.news[k] in news && Listed(r.value.news[k], category)
    ensures r.Ok? ==> NewestFirst(r.value.news, PublishedAt)
  {
    var listed := Filter(news, (n: News) => Listed(n, category));
    var sorted := SortNewestFirst(listed, PublishedAt);
    SameMembers(sorted, listed);
    match PageOf(sorted, page, limit)
    case None => Err(ServerError)
    case Some(items) => Ok(NewsPage(items, Paginate(page, limit, |listed|)))
  }

  /** GET /news/admin/all: every item, published or not, newest creation first, one page of them. */
  function AdminListNews(news: seq<News>, page: Option<int>, limit: Option<int>): (r: Result<NewsPage, NewsError>)
    ensures r == Err(ServerError) <==> Skip(page, limit) < 0
    ensures r.Ok? ==> r.value.pagination == Paginate(page, limit, |news|)
    ensures r.Ok? ==> IsPage(r.value.news, SortNewestFirst(news, CreatedAt), page, limit)
    ensures r.Ok? ==> forall k :: 0 <= k < |r.value.news| ==> r.value.news[k] in news
    ensures r.Ok? ==> NewestFirst(r.value.news, CreatedAt)
  {
    var sorted := SortNewestFirst(news, CreatedAt);
    SameMembers(sorted, news);
    match PageOf(sorted, page, limit)
    case None => Err(ServerError)
    case Some(items) => Ok(NewsPage(items, Paginate(page, limit, |news|)))
  }

  /** With a positive limit, every published item of the category is on one of the announced pages. */
  lemma EveryListedItemOnAnAnnouncedPage(news: seq<News>, category: Option<string>, limit: nat, n: News)
    requires 0 < limit && n in news && Listed(n, category)
    ensures exists page :: 1 <= page <= CeilDiv(Count(news, (m: News) => Listed(m, category)), limit)
                        && ListNews(news, Some(page), Some(limit), category).Ok?
                        && n in ListNews(news, Some(page), Some(limit), category).value.news
  {
    var listed := Filter(news, (m: News) => Listed(m, category));
    var sorted := SortNewestFirst(listed, PublishedAt);
    var i :| 0 <= i < |news| && news[i] == n;
    assert n in listed;
    assert n in multiset(sorted);
    var k :| 0 <= k < |sorted| && sorted[k] == n;
    PageCovers(sorted, limit, k);
    var page := k / limit + 1;
    assert ListNews(news, Some(page), Some(limit), category).value.news == PageOf(sorted, Some(page), Some(limit)).value;
  }

  /** With a positive limit, every item, published or not, is on one of the admin list's announced pages. */
  lemma EveryItemOnAnAnnouncedAdminPage(news: seq<News>, limit: nat, n: News)
    requires 0 < limit && n in news
    ensures exists page :: 1 <= page <= CeilDiv(|news|, limit)
                        && AdminListNews(news, Some(page), Some(limit)).Ok?
                        && n in AdminListNews(news, Some(page), Some(limit)).value.news
  {
    var sorted := SortNewestFirst(news, CreatedAt);
    assert n in multiset(sorted);
    var k :| 0 <= k < |sorted| && sorted[k] == n;
    PageCovers(sorted, limit, k);
    var page := k / limit + 1;
    assert AdminListNews(news, Some(page), Some(limit)).value.news == PageOf(sorted, Some(page), Some(limit)).value;
  }

  // ---------------------------------------------------------------- single items

  /** GET /news/:id: a published item, with its view counted. */
  method GetNews(db: Database, id: nat) returns (r: Result<News, NewsError>)
    requires db.Valid()
    modifies db`news
    ensures db.Valid()
    ensures
      match FindNews(old(db.news), id)
      case None => r == Err(NotFound) && db.news == old(db.news)
      case Some(i) =>
        var n := old(db.news[i]);
        if !n.isPublished then r == Err(NotFound) && db.news == old(db.news)
        else r == Ok(n.(views := n.views + 1)) && db.news == old(db.news)[i := n.(views := n.views + 1)]
  {
    var found := FindNews(db.news, id);
    if found.None? || !db.news[found.value].isPublished {
      return Err(NotFound);
    }
    var i := found.value;
    var n := db.news[i];
    n := n.(views := n.views + 1);
    db.news := db.news[i := n];
    r := Ok(n);
  }

  /** The body's isPublished: published unless it is the boolean false. */
  function PublishedFlag(isPublished: Option<Json>): bool {
    isPublished != Some(JBool(false))
  }

  /**
   * POST /news: title and content must be non-empty and a category or priority given must
   * be one of the enum's; the trimmed title and content must still be non-empty when the
   * document is saved.
   */
  method CreateNews(db: Database, author: UserId, title: Option<string>, content: Option<string>,
                    category: Option<string>, priority: Option<string>, isPublished: Option<Json>,
                    imageUrl: Option<string>, now: Time)
    returns (r: Result<News, NewsError>)
    requires db.Valid()
    modifies db`news, db`nextId
    ensures db.Valid()
    ensures r.Err? ==> db.news == old(db.news)
    ensures
      if !Truthy(title) || !Truthy(content)
         || (category.Some? && ParseCategory(category.value).None?)
         || (priority.Some? && ParsePriority(priority.value).None?) then
        r == Err(ValidationFailed)
      else if Trim(title.value) == "" || Trim(content.value) == "" then
        r == Err(ServerError)
      else
        var n := NewNews(old(db.nextId), Trim(title.value), Trim(content.value),
                         if category.Some? then ParseCategory(category.value) else None,
                         if priority.Some? then ParsePriority(priority.value) else None,
                         PublishedFlag(isPublished), Some(author), imageUrl, now);
        r == Ok(n) && db.news == old(db.news) + [n]
  {
    if !Truthy(title) || !Truthy(content) {
      return Err(ValidationFailed);
    }
    if category.Some? && ParseCategory(category.value).None? {
      return Err(ValidationFailed);
    }
    if priority.Some? && ParsePriority(priority.value).None? {
      return Err(ValidationFailed);
    }
    var trimmedTitle := Trim(title.value);
    var trimmedContent := Trim(content.value);
    if trimmedTitle == "" || trimmedContent == "" {
      // the required validators fail on save
      return Err(ServerError);
    }
    var id := db.NewId();
    var n := NewNews(id, trimmedTitle, trimmedContent,
                     if category.Some? then ParseCategory(category.value) else None,
                     if priority.Some? then ParsePriority(priority.value) else None,
                     PublishedFlag(isPublished), Some(author), imageUrl, now);
    db.news := db.news + [n];
    r := Ok(n);
  }

  /**
   * The update's field rules: a title or content non-empty after trimming, a non-empty
   * category or priority, a boolean isPublished and any given imageUrl replace the stored
   * value; a category or priority outside its enum fails the save.
   */
  function Revise(n: News, title: Option<string>, content: Option<string>, category: Option<string>,
                  priority: Option<string>, isPublished: Option<Json>, imageUrl: Option<string>)
    : (r: Option<News>)
    ensures r.None? <==>
      || (Truthy(category) && ParseCategory(category.value).None?)
      || (Truthy(priority) && ParsePriority(priority.value).None?)
    ensures r.Some? ==>
      && r.value.title == (if title.Some? && Trim(title.value) != "" then Trim(title.value) else n.title)
      && r.value.content == (if content.Some? && Trim(content.value) != "" then Trim(content.value) else n.content)
      && CategoryName(r.value.category) == (if Truthy(category) then category.value else CategoryName(n.category))
      && PriorityName(r.value.priority) == (if Truthy(priority) then priority.value else PriorityName(n.priority))
      && r.value.isPublished == (if isPublished.Some? && isPublished.value.JBool? then isPublished.value.b else n.isPublished)
      && r.value.imageUrl == (if imageUrl.Some? then imageUrl else n.imageUrl)
      && r.value.id == n.id && r.value.views == n.views && r.value.publishedAt == n.publishedAt
      && r.value.author == n.author && r.value.createdAt == n.createdAt
  {
    var c := if Truthy(category) then ParseCategory(category.value) else Some(n.category);
    var p := if Truthy(priority) then ParsePriority(priority.value) else Some(n.priority);
    if c.None? || p.None? then None
    else
      var t := if title.Some? then Trim(title.value) else "";
      var b := if content.Some? then Trim(content.value) else "";
      Some(n.(
        title := if t != "" then t else n.title,
        content := if b != "" then b else n.content,
        category := c.value,
        priority := p.value,
        isPublished := if isPublished.Some? && isPublished.value.JBool? then isPublished.value.b else n.isPublished,
        imageUrl := if imageUrl.Some? then imageUrl else n.imageUrl))
  }

  /** An update with an empty body leaves the item as it was. */
  lemma EmptyUpdateChangesNothing(n: News)
    ensures Revise(n, None, None, None, None, None, None) == Some(n)
  {
  }

  /** PUT /news/:id. */
  method UpdateNews(db: Database, id: nat, title: Option<string>, content: Option<string>,
                    category: Option<string>, priority: Option<string>, isPublished: Option<Json>,
                    imageUrl: Option<string>)
    returns (r: Result<News, NewsError>)
    requires db.Valid()
    modifies db`news
    ensures db.Valid()
    ensures r.Err? ==> db.news == old(db.news)
    ensures
      match FindNews(old(db.news), id)
      case None => r == Err(NotFound)
      case Some(i) =>
        match Revise(old(db.news[i]), title, content, category, priority, isPublished, imageUrl)
        case None => r == Err(ServerError)
        case Some(n) => r == Ok(n) && db.news == old(db.news)[i := n]
  {
    var found := FindNews(db.news, id);
    if found.None? {
      return Err(NotFound);
    }
    var i := found.value;
    var revised := Revise(db.news[i], title, content, category, priority, isPublished, imageUrl);
    if revised.None? {
      // the enum validator fails on save
      return Err(ServerError);
    }
    db.news := db.news[i := revised.value];
    r := Ok(revised.value);
  }

  /** DELETE /news/:id: the item is removed and every other one stays, in order. */
  method DeleteNews(db: Database, id: nat) returns (r: Result<(), NewsError>)
    requires db.Valid()
    modifies db`news
    ensures db.Valid()
    ensures
      match FindNews(old(db.news), id)
      case None => r == Err(NotFound) && db.news == old(db.news)
      case Some(i) => r == Ok(()) && db.news == old(db.news)[..i] + old(db.news)[i + 1..]
    ensures forall k :: 0 <= k < |db.news| ==> db.news[k].id != id
  {
    var found := FindNews(db.news, id);
    if found.None? {
      return Err(NotFound);
    }
    var i := found.value;
    ghost var before := db.news;
    db.news := db.news[..i] + db.news[i + 1..];
    forall k | 0 <= k < |db.news| ensures db.news[k].id != id {
      if k < i {
        assert db.news[k] == before[k];
      } else {
        assert db.news[k] == before[k + 1];
      }
    }
    r := Ok(());
  }
}
