/** The user administration handlers of `controllers/userController.js`:
    a filtered listing, lookup, a self-or-admin profile update that only
    overwrites the fields given, deletion, and the active-flag toggle. The
    user schema is not part of this model, so a user save is taken to
    succeed. */
module UserController {
  import opened Domain
  import opened Text
  import opened Users
  import opened Backend

  // ---------------------------------------------------------------- list

  /** The query parameters of the listing; `""` means absent. */
  datatype UserQuery = UserQuery(role: string, campus: string, search: string)

  /** The meaning of the listing's query object: every present filter holds. */
  predicate UserMatches(u: User, q: UserQuery) {
    && (q.role != "" ==> RoleName(u.role) == q.role)
    && (q.campus != "" ==> u.campus == q.campus)
    && (q.search != "" ==> ContainsIgnoreCase(u.name, q.search) || ContainsIgnoreCase(u.email, q.search))
  }

  /** Narrows a set of user ids to those passing one filter when it is present. */
  function Narrow(users: map<UserId, User>, ids: set<UserId>, present: bool, keep: User -> bool): (r: set<UserId>)
    requires ids <= users.Keys
    ensures r <= ids
    ensures forall k :: k in r <==> k in ids && (present ==> keep(users[k]))
  {
    if present then set k | k in ids && keep(users[k]) else ids
  }

  /** `getAllUsers`: starting from every user, the role filter, the campus
      filter and the name-or-email search are applied one after another, so
      a user is listed exactly when every present filter holds. */
  function GetAllUsers(s: Store, q: UserQuery): (r: set<UserId>)
    ensures r <= s.users.Keys
    ensures forall k :: k in r <==> k in s.users && UserMatches(s.users[k], q)
  {
    var byRole := Narrow(s.users, s.users.Keys, q.role != "", (u: User) => RoleName(u.role) == q.role);
    var byCampus := Narrow(s.users, byRole, q.campus != "", (u: User) => u.campus == q.campus);
    Narrow(s.users, byCampus, q.search != "",
           (u: User) => ContainsIgnoreCase(u.name, q.search) || ContainsIgnoreCase(u.email, q.search))
  }

  // ---------------------------------------------------------------- read one

  /** `getUserById`: the stored user, or `NotFound`. */
  function GetUserById(s: Store, id: UserId): (r: Result<User>)
    ensures r.Success? <==> id in s.users
    ensures r.Success? ==> r.value == s.users[id]
    ensures r.Failure? ==> r.code == NotFound
  {
    if id in s.users then Success(s.users[id]) else Failure(NotFound)
  }

  // ---------------------------------------------------------------- update

  /** The body of a profile update; `""` stands for an absent or empty field. */
  datatype ProfileForm = ProfileForm(name: string, phone: string, batch: string, campus: string)

  /** Who may update a profile: its owner, or an admin or superadmin. */
  predicate MayUpdate(actor: User, target: UserId) {
    actor.id == target || IsAdmin(actor.role)
  }

  /** A field of the form replaces the stored value only when it is non-empty. */
  function Overwrite(given: string, current: string): string {
    if given != "" then given else current
  }

  /** `updateUser`: the authorisation check comes before the lookup, so a
      caller without rights gets `Forbidden` even for a missing user. Only
      name, phone, batch and campus can change, and only to non-empty values. */
  function UpdateUser(s: Store, actor: User, target: UserId, form: ProfileForm): (r: Outcome)
    ensures r.emits == []
    ensures r.code == Ok || r.code == Forbidden || r.code == NotFound
    ensures r.code == Forbidden <==> !MayUpdate(actor, target)
    ensures r.code == NotFound <==> MayUpdate(actor, target) && target !in s.users
    ensures r.code != Ok ==> r.store == s
    ensures r.store.concerns == s.concerns && r.store.chats == s.chats && r.store.bus == s.bus
    ensures r.code == Ok ==>
      && target in s.users
      && r.store.users.Keys == s.users.Keys
      && (forall k :: k in s.users && k != target ==> r.store.users[k] == s.users[k])
      && var before := s.users[target];
      && var after := r.store.users[target];
      && (form.name != "" ==> after.name == form.name)
      && (form.phone != "" ==> after.phone == form.phone)
      && (form.batch != "" ==> after.batch == form.batch)
      && (form.campus != "" ==> after.campus == form.campus)
      && (form.name == "" ==> after.name == before.name)
      && (form.phone == "" ==> after.phone == before.phone)
      && (form.batch == "" ==> after.batch == before.batch)
      && (form.campus == "" ==> after.campus == before.campus)
      && after.id == before.id && after.email == before.email
      && after.role == before.role && after.isActive == before.isActive
  {
    if !MayUpdate(actor, target) then Refuse(s, Forbidden)
    else if target !in s.users then Refuse(s, NotFound)
    else
      var u := s.users[target];
      var updated := u.(
        name := Overwrite(form.name, u.name),
        phone := Overwrite(form.phone, u.phone),
        batch := Overwrite(form.batch, u.batch),
        campus := Overwrite(form.campus, u.campus));
      Outcome(Ok, s.(users := s.users[target := updated]), [])
  }

  /** An update is idempotent, and an empty form changes nothing. */
  lemma UpdateUserIdempotent(s: Store, actor: User, target: UserId, form: ProfileForm)
    ensures var once := UpdateUser(s, actor, target, form).store;
            UpdateUser(once, actor, target, form).store == once
    ensures UpdateUser(s, actor, target, ProfileForm("", "", "", "")).store == s
  {
    var r := UpdateUser(s, actor, target, form);
    if r.code == Ok {
      var once := r.store;
      var twice := UpdateUser(once, actor, target, form).store;
      assert twice.users[target] == once.users[target];
      assert twice.users == once.users;
    }
    var e := UpdateUser(s, actor, target, ProfileForm("", "", "", ""));
    if e.code == Ok {
      assert e.store.users[target] == s.users[target];
      assert e.store.users == s.users;
    }
  }

  // ---------------------------------------------------------------- delete

  /** `deleteUser`: removes exactly that user. Concerns and messages that
      refer to the user are left as they are. */
  function DeleteUser(s: Store, id: UserId): (r: Outcome)
    ensures r.emits == []
    ensures r.code == Ok || r.code == NotFound
    ensures r.code == NotFound <==> id !in s.users
    ensures r.code == NotFound ==> r.store == s
    ensures r.store.concerns == s.concerns && r.store.chats == s.chats && r.store.bus == s.bus
    ensures r.code == Ok ==>
      && id !in r.store.users
      && (forall k :: k != id ==> (k in r.store.users <==> k in s.users))
      && (forall k :: k in r.store.users ==> r.store.users[k] == s.users[k])
  {
    if id !in s.users then Refuse(s, NotFound)
    else Outcome(Ok, s.(users := s.users - {id}), [])
  }

  // ---------------------------------------------------------------- toggle

  /** `toggleUserStatus`: negates the active flag; nothing else changes. */
  function ToggleUserStatus(s: Store, id: UserId): (r: Outcome)
    ensures r.emits == []
    ensures r.code == Ok || r.code == NotFound
    ensures r.code == NotFound <==> id !in s.users
    ensures r.code == NotFound ==> r.store == s
    ensures r.store.concerns == s.concerns && r.store.chats == s.chats && r.store.bus == s.bus
    ensures r.code == Ok ==>
      && r.store.users.Keys == s.users.Keys
      && r.store.users[id].isActive == !s.users[id].isActive
      && r.store.users[id] == s.users[id].(isActive := r.store.users[id].isActive)
      && (forall k :: k in s.users && k != id ==> r.store.users[k] == s.users[k])
  {
    if id !in s.users then Refuse(s, NotFound)
    else
      var u := s.users[id];
      Outcome(Ok, s.(users := s.users[id := u.(isActive := !u.isActive)]), [])
  }

  /** Toggling twice restores the store. */
  lemma ToggleInvolution(s: Store, id: UserId)
    ensures ToggleUserStatus(ToggleUserStatus(s, id).store, id).store == s
  {
    var once := ToggleUserStatus(s, id);
    if once.code == Ok {
      var twice := ToggleUserStatus(once.store, id).store;
      assert twice.users[id] == s.users[id];
      assert twice.users == s.users;
    }
  }

  /** Every user handler keeps each user filed under its own id. */
  lemma UserHandlersPreserveInv(s: Store, actor: User, target: UserId, form: ProfileForm)
    requires StoreInv(s)
    ensures StoreInv(UpdateUser(s, actor, target, form).store)
    ensures StoreInv(DeleteUser(s, target).store)
    ensures StoreInv(ToggleUserStatus(s, target).store)
  {
  }
}
