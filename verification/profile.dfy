/** The profile handlers: reading one's own document, and changing one's username. */
module Profile {
  import opened Common
  import opened UserModel
  import opened Store

  datatype ProfileError = Forbidden | UsernameTaken | ServerError

  predicate UsernameHeld(users: seq<User>, name: string) {
    exists k :: 0 <= k < |users| && users[k].username == name
  }

  predicate UniqueUsernames(users: seq<User>) {
    forall i, j :: 0 <= i < j < |users| ==> users[i].username != users[j].username
  }

  /** GET /profile: the user's own document, or null when it is gone. */
  function GetProfile(users: seq<User>, uid: UserId): (r: Option<User>)
    ensures r.Some? ==> r.value in users && r.value.id == uid
    ensures r.None? <==> forall k :: 0 <= k < |users| ==> users[k].id != uid
  {
    match FindUser(users, uid)
    case None => None
    case Some(i) => Some(users[i])
  }

  /**
   * PUT /profile: an admin may not change the username; a new, non-empty name that
   * somebody holds is refused; otherwise the name is set and nothing else changes.
   */
  method UpdateProfile(db: Database, uid: UserId, username: Option<string>) returns (r: Result<(), ProfileError>)
    requires db.Valid()
    modifies db`users
    ensures db.Valid()
    ensures r.Err? ==> db.users == old(db.users)
    ensures
      match FindUser(old(db.users), uid)
      case None => r == Err(ServerError)
      case Some(i) =>
        var u := old(db.users[i]);
        if u.isAdmin then r == Err(Forbidden)
        else if Truthy(username) && username.value != u.username then
          if UsernameHeld(old(db.users), username.value) then r == Err(UsernameTaken)
          else r == Ok(()) && db.users == old(db.users)[i := u.(username := username.value)]
        else r == Ok(()) && db.users == old(db.users)
    ensures UniqueUsernames(old(db.users)) ==> UniqueUsernames(db.users)
  {
    var found := FindUser(db.users, uid);
    if found.None? {
      return Err(ServerError);
    }
    var i := found.value;
    var user := db.users[i];
    if user.isAdmin {
      return Err(Forbidden);
    }
    if Truthy(username) && username.value != user.username {
      if UsernameHeld(db.users, username.value) {
        return Err(UsernameTaken);
      }
      db.users := db.users[i := user.(username := username.value)];
    }
    r := Ok(());
  }
}
