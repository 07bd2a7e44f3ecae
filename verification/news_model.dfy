/** The news document: title, content, category and priority enums, publication flag and views. */
module NewsModel {
  import opened Common
  import opened UserModel

  datatype Category = Announcement | Update | Maintenance | Promotion | General

  datatype Priority = Low | Medium | High | Urgent

  function CategoryName(c: Category): string {
    match c
    case Announcement => "announcement"
    case Update => "update"
    case Maintenance => "maintenance"
    case Promotion => "promotion"
    case General => "general"
  }

  /** The category enum: the category a string names, if it is one of the five. */
  function ParseCategory(s: string): (c: Option<Category>)
    ensures c.Some? ==> CategoryName(c.value) == s
    ensures c.None? ==> s !in {"announcement", "update", "maintenance", "promotion", "general"}
  {
    if s == "announcement" then Some(Announcement)
    else if s == "update" then Some(Update)
    else if s == "maintenance" then Some(Maintenance)
    else if s == "promotion" then Some(Promotion)
    else if s == "general" then Some(General)
    else None
  }

  function PriorityName(p: Priority): string {
    match p
    case Low => "low"
    case Medium => "medium"
    case High => "high"
    case Urgent => "urgent"
  }

  /** The priority enum: the priority a string names, if it is one of the four. */
  function ParsePriority(s: string): (p: Option<Priority>)
    ensures p.Some? ==> PriorityName(p.value) == s
    ensures p.None? ==> s !in {"low", "medium", "high", "urgent"}
  {
    if s == "low" then Some(Low)
    else if s == "medium" then Some(Medium)
    else if s == "high" then Some(High)
    else if s == "urgent" then Some(Urgent)
    else None
  }

  datatype News = News(
    id: nat,
    title: string,
    content: string,
    category: Category,
    priority: Priority,
    isPublished: bool,
    publishedAt: Time,
    author: Option<UserId>,
    imageUrl: Option<string>,
    views: nat,
    createdAt: Time)

  /**
   * `new News({...})` at time now: an absent category or priority takes its default
   * (general, medium), publishedAt and createdAt are now and views start at zero.
   */
  function NewNews(id: nat, title: string, content: string, category: Option<Category>,
                   priority: Option<Priority>, isPublished: bool, author: Option<UserId>,
                   imageUrl: Option<string>, now: Time): (n: News)
    ensures n.id == id && n.title == title && n.content == content
    ensures n.category == (if category.Some? then category.value else General)
    ensures n.priority == (if priority.Some? then priority.value else Medium)
    ensures n.isPublished == isPublished && n.author == author && n.imageUrl == imageUrl
    ensures n.views == 0 && n.publishedAt == now && n.createdAt == now
  {
    News(id, title, content,
         if category.Some? then category.value else General,
         if priority.Some? then priority.value else Medium,
         isPublished, now, author, imageUrl, 0, now)
  }
}
