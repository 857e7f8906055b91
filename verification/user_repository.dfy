/**
 * The user repository: accounts keyed by id, their profile photos, and the
 * back-reference from employees (`User.employee`), which is given as the
 * set of user ids some employee points to.
 */
module UserRepository {
  import opened Wrappers
  import opened PyValues

  /**
   * An account. `columns` holds the columns no operation here reads
   * (`alias`, `password`, timestamps); `profileImageId` is the linked
   * profile photo, if any.
   */
  datatype User = User(
    email: string,
    enabled: bool,
    isDeleted: bool,
    systemAdmin: bool,
    roleId: Option<int>,
    profileImageId: Option<int>,
    columns: Dict)

  type Store = map<int, User>

  /** Profile photos: their URL by id. */
  type Photos = map<int, string>

  /** Every user but `id` is untouched and no user appears or disappears. */
  predicate OthersUnchanged(s: Store, s': Store, id: int) {
    s'.Keys == s.Keys && forall k :: k in s && k != id ==> s'[k] == s[k]
  }

  /** `get_by_id`: the user, or `None`. */
  function GetById(s: Store, id: int): (r: Option<User>)
    ensures r.Some? <==> id in s
    ensures r.Some? ==> r.value == s[id]
  {
    if id in s then Some(s[id]) else None
  }

  /**
   * What `.first()` may answer to a query for the users with `email`: no
   * row exactly when none matches, otherwise one of the matching rows. The
   * database picks which.
   */
  predicate FirstWithEmail(s: Store, email: string, first: Option<int>): (r: bool)
    ensures r ==> (first.Some? <==> email in (set id | id in s :: s[id].email))
  {
    && (first.None? <==> forall id :: id in s ==> s[id].email != email)
    && (first.Some? ==> first.value in s && s[first.value].email == email)
  }

  /** Whatever the store, `.first()` has an admissible answer. */
  lemma FirstWithEmailExists(s: Store, email: string)
    ensures exists first :: FirstWithEmail(s, email, first)
  {
    if id :| id in s && s[id].email == email {
      assert FirstWithEmail(s, email, Some(id));
    } else {
      assert FirstWithEmail(s, email, None);
    }
  }

  /** With a single user holding the email, the answer is that user. */
  lemma FirstWithEmailUnique(s: Store, email: string, id: int, first: Option<int>)
    requires id in s && s[id].email == email
    requires forall j :: j in s && s[j].email == email ==> j == id
    requires FirstWithEmail(s, email, first)
    ensures first == Some(id)
  {
    if first.Some? {
      var k := first.value;
      assert k in s && s[k].email == email;
      assert k == id;
    }
  }

  /** `archive`: refused for a missing user, a system administrator or an archived user; otherwise archives and disables. */
  function Archive(s: Store, id: int): (r: (bool, Store))
    ensures r.0 <==> id in s && !s[id].systemAdmin && !s[id].isDeleted
    ensures !r.0 ==> r.1 == s
    ensures r.0 ==> OthersUnchanged(s, r.1, id) && r.1[id].isDeleted && !r.1[id].enabled
                    && r.1[id].(isDeleted := s[id].isDeleted, enabled := s[id].enabled) == s[id]
  {
    if id !in s || s[id].systemAdmin || s[id].isDeleted then (false, s)
    else (true, s[id := s[id].(isDeleted := true, enabled := false)])
  }

  /** `recover`: refused unless the user is archived; otherwise un-archives and enables. */
  function Recover(s: Store, id: int): (r: (bool, Store))
    ensures r.0 <==> id in s && s[id].isDeleted
    ensures !r.0 ==> r.1 == s
    ensures r.0 ==> OthersUnchanged(s, r.1, id) && !r.1[id].isDeleted && r.1[id].enabled
                    && r.1[id].(isDeleted := s[id].isDeleted, enabled := s[id].enabled) == s[id]
  {
    if id !in s || !s[id].isDeleted then (false, s)
    else (true, s[id := s[id].(isDeleted := false, enabled := true)])
  }

  /** Recovering an archived user restores it, enabled, whatever its `enabled` flag was before. */
  lemma RecoverAfterArchive(s: Store, id: int)
    requires Archive(s, id).0
    ensures Recover(Archive(s, id).1, id) == (true, s[id := s[id].(enabled := true)])
  {
    var s1 := Archive(s, id).1;
    assert s1[id := s1[id].(isDeleted := false, enabled := true)] == s[id := s[id].(enabled := true)];
  }

  /** `is_sys_admin`: false for a falsy id without a lookup; otherwise the user's flag (a missing user raises). */
  function IsSysAdmin(s: Store, id: int): (r: bool)
    requires id != 0 ==> id in s
    ensures r <==> id != 0 && s[id].systemAdmin
  {
    if id == 0 then false else s[id].systemAdmin
  }

  /** `is_user_enabled`: false for a falsy id; otherwise the user's flag. */
  function IsUserEnabled(s: Store, id: int): (r: bool)
    requires id != 0 ==> id in s
    ensures r <==> id != 0 && s[id].enabled
  {
    if id == 0 then false else s[id].enabled
  }

  /** `toggle_activation`: a system administrator is refused; anyone else has `enabled` flipped. */
  function ToggleActivation(s: Store, id: int): (r: (bool, Store))
    requires id in s
    ensures r.0 <==> !(id != 0 && s[id].systemAdmin)
    ensures !r.0 ==> r.1 == s
    ensures r.0 ==> OthersUnchanged(s, r.1, id) && r.1[id].enabled == !s[id].enabled
                    && r.1[id].(enabled := s[id].enabled) == s[id]
  {
    if IsSysAdmin(s, id) then (false, s)
    else (true, s[id := s[id].(enabled := !s[id].enabled)])
  }

  /** Toggling a non-administrator twice is the identity. */
  lemma ToggleActivationTwice(s: Store, id: int)
    requires id in s
    ensures ToggleActivation(ToggleActivation(s, id).1, id).1 == s
  {
    if !IsSysAdmin(s, id) {
      var s1 := ToggleActivation(s, id).1;
      assert s1[id := s1[id].(enabled := !s1[id].enabled)] == s;
    }
  }

  /** A system administrator can be neither archived nor deactivated. */
  lemma AdministratorsStay(s: Store, id: int)
    requires id in s && id != 0 && s[id].systemAdmin
    ensures Archive(s, id) == (false, s) && ToggleActivation(s, id) == (false, s)
  {
  }

  /**
   * `can_be_linked(email)`: the id of the user `.first()` finds for the
   * email (`first`), unless an employee already points to it.
   */
  function CanBeLinked(s: Store, linked: set<int>, email: string, first: Option<int>): (r: Option<int>)
    requires FirstWithEmail(s, email, first)
    ensures r.Some? ==> r.value in s && s[r.value].email == email && r.value !in linked
    ensures r.None? <==> first.None? || first.value in linked
  {
    match first
    case None => None
    case Some(id) => if id in linked then None else Some(id)
  }

  /** With at most one user per email the answer does not depend on the database's choice. */
  lemma CanBeLinkedUniqueEmail(s: Store, linked: set<int>, email: string, first: Option<int>, id: int)
    requires FirstWithEmail(s, email, first)
    requires id in s && s[id].email == email
    requires forall k :: k in s && s[k].email == email ==> k == id
    ensures CanBeLinked(s, linked, email, first) == if id in linked then None else Some(id)
  {
  }

  /**
   * `get_active_users(page, search)`: the enabled users no employee points
   * to, narrowed by the text search when `search` is non-empty. The search
   * predicate stands for a helper the repository imports but that is not
   * part of this model. Pagination is left out: the result is the set of
   * ids the query returns.
   */
  function GetActiveUsers(s: Store, linked: set<int>, search: string, matches: User -> bool): (r: set<int>)
    ensures forall id :: id in r <==> id in s && s[id].enabled && id !in linked && (search != "" ==> matches(s[id]))
  {
    set id | id in s && s[id].enabled && id !in linked && (search != "" ==> matches(s[id]))
  }

  /**
   * `change_profile_photo(id, url)`: refused for a missing user. A user with
   * a (truthy) photo id has that photo's URL overwritten, when the photo
   * exists; a user without one gets a new photo, whose id the database
   * assigns (`newPhotoId`).
   */
  function ChangeProfilePhoto(s: Store, photos: Photos, id: int, url: string, newPhotoId: int): (r: (bool, Store, Photos))
    requires newPhotoId !in photos && newPhotoId != 0
    ensures r.0 <==> id in s
    ensures !r.0 ==> r.1 == s && r.2 == photos
    ensures r.0 ==> OthersUnchanged(s, r.1, id) && r.1[id].(profileImageId := s[id].profileImageId) == s[id]
    ensures r.0 && HasPhoto(s[id]) ==> r.1 == s && r.2 == (if s[id].profileImageId.value in photos then photos[s[id].profileImageId.value := url] else photos)
    ensures r.0 && !HasPhoto(s[id]) ==> r.1[id].profileImageId == Some(newPhotoId) && r.2 == photos[newPhotoId := url]
  {
    if id !in s then (false, s, photos)
    else if HasPhoto(s[id]) then
      var pid := s[id].profileImageId.value;
      (true, s, if pid in photos then photos[pid := url] else photos)
    else
      (true, s[id := s[id].(profileImageId := Some(newPhotoId))], photos[newPhotoId := url])
  }

  /** `if user.profile_image_id`: a photo id that is set and non-zero. */
  predicate HasPhoto(u: User) {
    u.profileImageId.Some? && u.profileImageId.value != 0
  }

  /** After a successful change the user's photo shows the new URL. */
  lemma ChangedPhotoShowsUrl(s: Store, photos: Photos, id: int, url: string, newPhotoId: int)
    requires newPhotoId !in photos && newPhotoId != 0 && id in s
    requires HasPhoto(s[id]) ==> s[id].profileImageId.value in photos
    ensures var (ok, s', photos') := ChangeProfilePhoto(s, photos, id, url, newPhotoId);
      ok && s'[id].profileImageId.Some? && photos'[s'[id].profileImageId.value] == url
  {
  }

  /** The columns `update` may set through `data` besides the photo URL. */
  predicate PlainColumns(data: Dict) {
    forall k :: k in data && k != "profile_image_url" ==> k in {"alias", "password"}
  }

  /**
   * `update(id, data)`: `data["profile_image_url"]` must be present. When it
   * is not `None` the photo changes; the key is then dropped and the rest is
   * written to the user's row. The guard tests a query object, so the call
   * reports success even for a missing user.
   */
  function Update(s: Store, photos: Photos, id: int, data: Dict, newPhotoId: int): (r: (bool, Store, Photos))
    requires "profile_image_url" in data && (data["profile_image_url"].PyNone? || data["profile_image_url"].Str?)
    requires PlainColumns(data)
    requires newPhotoId !in photos && newPhotoId != 0
    ensures r.0
    ensures r.1.Keys == s.Keys && forall k :: k in s && k != id ==> r.1[k] == s[k]
    ensures id in s ==> r.1[id].columns == s[id].columns + (data - {"profile_image_url"})
    ensures id in s ==> "profile_image_url" !in r.1[id].columns - s[id].columns.Keys
    ensures data["profile_image_url"].PyNone? ==> r.2 == photos && (id in s ==> r.1[id] == s[id].(columns := r.1[id].columns))
  {
    var url := data["profile_image_url"];
    var (_, s1, photos1) := if url.Str? then ChangeProfilePhoto(s, photos, id, url.s, newPhotoId) else (false, s, photos);
    var rest := data - {"profile_image_url"};
    if id in s1 then (true, s1[id := s1[id].(columns := s1[id].columns + rest)], photos1)
    else (true, s1, photos1)
  }
}
