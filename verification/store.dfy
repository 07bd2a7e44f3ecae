/**
 * The database the route handlers share: the users collection, the (at most one) settings
 * document and the news collection, updated in place by the handlers. `nextId` stands for
 * the ObjectId generator: every id handed out is below it, so a new one is fresh.
 */
module Store {
  import opened Common
  import opened Collections
  import opened UserModel
  import opened SettingsModel
  import opened NewsModel

  /** A stored user: its ids were handed out already and its session fields agree. */
  predicate UserValid(u: User, nextId: nat) {
    && u.id < nextId
    && MiningConsistent(u)
    && forall k :: 0 <= k < |u.withdrawalRequests| ==> u.withdrawalRequests[k].id < nextId
  }

  predicate UniqueUserIds(users: seq<User>) {
    forall i, j :: 0 <= i < j < |users| ==> users[i].id != users[j].id
  }

  predicate UsersValid(users: seq<User>, nextId: nat) {
    UniqueUserIds(users) && forall i :: 0 <= i < |users| ==> UserValid(users[i], nextId)
  }

  predicate NewsValid(news: seq<News>, nextId: nat) {
    && (forall i, j :: 0 <= i < j < |news| ==> news[i].id != news[j].id)
    && forall i :: 0 <= i < |news| ==> news[i].id < nextId
  }

  /** `User.findById(id)`: the position of the user with that id. */
  function FindUser(users: seq<User>, id: UserId): (r: Option<nat>)
    ensures r.Some? ==> r.value < |users| && users[r.value].id == id
    ensures r.None? ==> forall k :: 0 <= k < |users| ==> users[k].id != id
  {
    FirstIndex(users, (u: User) => u.id == id)
  }

  /** `News.findById(id)`: the position of the news item with that id. */
  function FindNews(news: seq<News>, id: nat): (r: Option<nat>)
    ensures r.Some? ==> r.value < |news| && news[r.value].id == id
    ensures r.None? ==> forall k :: 0 <= k < |news| ==> news[k].id != id
  {
    FirstIndex(news, (n: News) => n.id == id)
  }

  class Database {
    var users: seq<User>
    var settings: Option<Settings>
    var news: seq<News>
    var nextId: nat

    ghost predicate Valid()
      reads this
    {
      UsersValid(users, nextId) && NewsValid(news, nextId)
    }

    /** An empty database: no users, no news, no settings document yet. */
    constructor ()
      ensures Valid()
      ensures users == [] && news == [] && settings == None
    {
      users := [];
      settings := None;
      news := [];
      nextId := 0;
    }

    /** A fresh ObjectId. */
    method NewId() returns (id: nat)
      requires Valid()
      modifies this`nextId
      ensures Valid()
      ensures id == old(nextId) && nextId == id + 1
    {
      id := nextId;
      nextId := nextId + 1;
    }
  }
}
