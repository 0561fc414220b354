/**
 * The user service: the users table, unique by username and by email, with
 * its create, update and delete operations. The monolith's UserService and
 * the user-service's UserService share everything except that the latter's
 * update also merges the company id and it can list a company's users.
 * Every failing call leaves the table as it was, the services being
 * transactional.
 */
module Users {
  import opened Wrappers

  /**
   * A stored user row. `companyId` is the user-service's `companyId`, or the
   * id of the monolith's optional company relation (its `company_id` join
   * column).
   */
  datatype User = User(
    id: int,
    username: string,
    email: string,
    name: string,
    phoneNumber: Option<string>,
    companyId: Option<int>,
    createdAt: int,
    updatedAt: int)

  /**
   * A create body; bean validation makes username, email and name present.
   * `company` is the monolith's nested `company` object, or the
   * user-service's `companyId` number.
   */
  datatype UserDraft = UserDraft(
    username: string,
    email: string,
    name: string,
    phoneNumber: Option<string>,
    company: Ref)

  /** How a service stores the company a new user refers to. */
  datatype CompanyLink =
    | ResolveCompanyIn(companyIds: set<int>)  // the monolith: a relation whose join column refers to the companies table
    | StoreCompanyId                          // the user-service: a plain number, stored unchecked

  /**
   * The exception saving a new user raises for its company, if any. In the
   * monolith the insert carries the company's id in the join column: an
   * object without an id is an unsaved entity the flush refuses, and an id
   * no stored company has breaks the foreign key. No company at all is
   * allowed. The user-service stores any number.
   */
  function CompanyLinkError(link: CompanyLink, company: Ref): (e: Option<Error>)
    ensures e.None? <==> link.StoreCompanyId? || company.NullRef? || (company.RefTo? && company.id in link.companyIds)
    ensures link.ResolveCompanyIn? && company.NullId? ==> e == Some(UnsavedReference)
    ensures link.ResolveCompanyIn? && company.RefTo? && company.id !in link.companyIds ==>
            e == Some(CompanyNotFound(company.id))
  {
    match link
    case StoreCompanyId => None
    case ResolveCompanyIn(companyIds) =>
      match company
      case NullRef => None
      case NullId => Some(UnsavedReference)
      case RefTo(id) => if id in companyIds then None else Some(CompanyNotFound(id))
  }

  /** An update body as the service reads it; None is null. A username in the body is never read. */
  datatype UserPatch = UserPatch(
    name: Option<string>,
    email: Option<string>,
    phoneNumber: Option<string>,
    companyId: Option<int>)

  /** existsByUsername. */
  predicate UsernameExists(users: map<int, User>, username: string) {
    exists id :: id in users && users[id].username == username
  }

  /** existsByEmail. */
  predicate EmailExists(users: map<int, User>, email: string) {
    exists id :: id in users && users[id].email == email
  }

  /** No two stored users share a username, and no two share an email. */
  ghost predicate Unique(users: map<int, User>) {
    && (forall i, j :: i in users && j in users && users[i].username == users[j].username ==> i == j)
    && (forall i, j :: i in users && j in users && users[i].email == users[j].email ==> i == j)
  }

  /** findByCompanyId: the users whose company is `companyId`, as stored. */
  function UsersByCompanyId(users: map<int, User>, companyId: int): (r: map<int, User>)
    ensures forall id :: id in r ==> id in users && r[id] == users[id] && r[id].companyId == Some(companyId)
    ensures forall id :: id in users && users[id].companyId == Some(companyId) ==> id in r
  {
    map id | id in users && users[id].companyId == Some(companyId) :: users[id]
  }

  /** Whether `patch` changes the email of `u`: it gives one, and not the user's current one. */
  predicate ChangesEmail(u: User, patch: UserPatch) {
    patch.email.Some? && patch.email.value != u.email
  }

  /**
   * The row the monolith's updateUser saves when the email check passes:
   * name, email and phone number are replaced when given, and the update
   * hook stamps the update time. The username and the company are kept.
   */
  function MergedProfile(u: User, patch: UserPatch, now: int): (m: User)
    ensures m.id == u.id && m.username == u.username && m.companyId == u.companyId
    ensures m.createdAt == u.createdAt && m.updatedAt == now
    ensures m.email != u.email ==> ChangesEmail(u, patch) && m.email == patch.email.value
  {
    u.(name := patch.name.GetOr(u.name),
       email := patch.email.GetOr(u.email),
       phoneNumber := patch.phoneNumber.OrElse(u.phoneNumber),
       updatedAt := now)
  }

  /**
   * The row the user-service's updateUser saves when the email check passes:
   * name, email, phone number and company are replaced when given, and the
   * update hook stamps the update time. The username is kept.
   */
  function Merged(u: User, patch: UserPatch, now: int): (m: User)
    ensures m.id == u.id && m.username == u.username
    ensures m.createdAt == u.createdAt && m.updatedAt == now
    ensures m.email != u.email ==> ChangesEmail(u, patch) && m.email == patch.email.value
  {
    u.(name := patch.name.GetOr(u.name),
       email := patch.email.GetOr(u.email),
       phoneNumber := patch.phoneNumber.OrElse(u.phoneNumber),
       companyId := patch.companyId.OrElse(u.companyId),
       updatedAt := now)
  }

  /** The user-service's update is the monolith's one plus the company merge. */
  lemma MergedExtendsProfile(u: User, patch: UserPatch, now: int)
    ensures Merged(u, patch, now) == MergedProfile(u, patch, now).(companyId := patch.companyId.OrElse(u.companyId))
    ensures patch.companyId.None? ==> Merged(u, patch, now) == MergedProfile(u, patch, now)
  {
  }

  /** Sending the same update again, later, changes only the update time. */
  lemma MergedTwiceOnlyRestamps(u: User, patch: UserPatch, now: int, later: int)
    ensures MergedProfile(MergedProfile(u, patch, now), patch, later) == MergedProfile(u, patch, now).(updatedAt := later)
    ensures Merged(Merged(u, patch, now), patch, later) == Merged(u, patch, now).(updatedAt := later)
  {
  }

  /** Adding a user under an unused id, username and email keeps both unique. */
  lemma InsertKeepsUnique(users: map<int, User>, id: int, u: User)
    requires Unique(users) && id !in users
    requires !UsernameExists(users, u.username) && !EmailExists(users, u.email)
    ensures Unique(users[id := u])
  {
  }

  /**
   * Replacing a user by a row with the same username that keeps its email,
   * or takes an email no user has, keeps both unique.
   */
  lemma ReplaceKeepsUnique(users: map<int, User>, id: int, u: User)
    requires Unique(users) && id in users && u.username == users[id].username
    requires u.email == users[id].email || !EmailExists(users, u.email)
    ensures Unique(users[id := u])
  {
  }

  class UserStore {
    var users: map<int, User>
    var nextId: int

    /** Every row is filed under its own identifier, below the counter; usernames and emails are unique. */
    ghost predicate Valid()
      reads this
    {
      && (forall id :: id in users ==> users[id].id == id && id < nextId)
      && Unique(users)
    }

    /** An empty table; identifiers are generated from 1. */
    constructor ()
      ensures Valid() && users == map[] && nextId == 1
    {
      users := map[];
      nextId := 1;
    }

    /**
     * createUser: fails on a username, then on an email, already used; then
     * the save fails on a company reference `link` refuses; otherwise adds one
     * row under a fresh id. The user-service's `companyId` is a number, so
     * its body has no company object without an id.
     */
    method Create(draft: UserDraft, link: CompanyLink, now: int) returns (r: Result<User>)
      requires Valid()
      requires link.StoreCompanyId? ==> !draft.company.NullId?
      modifies this
      ensures Valid()
      ensures old(UsernameExists(users, draft.username)) ==> r == Err(UsernameTaken(draft.username))
      ensures !old(UsernameExists(users, draft.username)) && old(EmailExists(users, draft.email)) ==>
              r == Err(EmailTaken(draft.email))
      ensures !old(UsernameExists(users, draft.username)) && !old(EmailExists(users, draft.email))
              && CompanyLinkError(link, draft.company).Some? ==>
              r == Err(CompanyLinkError(link, draft.company).value)
      ensures r.Err? ==> users == old(users) && nextId == old(nextId)
      ensures !old(UsernameExists(users, draft.username)) && !old(EmailExists(users, draft.email))
              && CompanyLinkError(link, draft.company).None? ==>
              && r == Ok(User(old(nextId), draft.username, draft.email, draft.name, draft.phoneNumber,
                              RefId(draft.company), now, now))
              && old(nextId) !in old(users)
              && users == old(users)[old(nextId) := r.value]
              && nextId == old(nextId) + 1
    {
      if UsernameExists(users, draft.username) {
        return Err(UsernameTaken(draft.username));
      }
      if EmailExists(users, draft.email) {
        return Err(EmailTaken(draft.email));
      }
      var companyError := CompanyLinkError(link, draft.company);
      if companyError.Some? {
        return Err(companyError.value);
      }
      var user := User(nextId, draft.username, draft.email, draft.name, draft.phoneNumber, RefId(draft.company), now, now);
      InsertKeepsUnique(users, nextId, user);
      users := users[nextId := user];
      nextId := nextId + 1;
      r := Ok(user);
    }

    /**
     * The monolith's updateUser: name and phone number are overwritten when
     * given; a new email is checked against the other users (the user's own
     * current email is no conflict). Username and company never change.
     */
    method UpdateProfile(id: int, patch: UserPatch, now: int) returns (r: Result<User>)
      requires Valid()
      modifies this
      ensures Valid() && nextId == old(nextId)
      ensures r.Err? ==> users == old(users)
      ensures id !in old(users) ==> r == Err(UserNotFound(id))
      ensures id in old(users) ==>
              var u := old(users)[id];
              && (ChangesEmail(u, patch) && old(EmailExists(users, patch.email.value)) ==>
                    r == Err(EmailTaken(patch.email.value)))
              && (!(ChangesEmail(u, patch) && old(EmailExists(users, patch.email.value))) ==>
                    r == Ok(MergedProfile(u, patch, now)) && users == old(users)[id := r.value])
    {
      if id !in users {
        return Err(UserNotFound(id));
      }
      var user := users[id];
      user := user.(name := patch.name.GetOr(user.name));
      if patch.email.Some? && patch.email.value != user.email {
        if EmailExists(users, patch.email.value) {
          return Err(EmailTaken(patch.email.value));
        }
        user := user.(email := patch.email.value);
      }
      user := user.(phoneNumber := patch.phoneNumber.OrElse(user.phoneNumber));
      user := user.(updatedAt := now);
      ReplaceKeepsUnique(users, id, user);
      users := users[id := user];
      r := Ok(user);
    }

    /**
     * The user-service's updateUser: the monolith's update plus one more
     * setter, the company id when given. It cannot fail, so applying it after
     * the profile merge inside the same call gives the same final row.
     */
    method Update(id: int, patch: UserPatch, now: int) returns (r: Result<User>)
      requires Valid()
      modifies this
      ensures Valid() && nextId == old(nextId)
      ensures r.Err? ==> users == old(users)
      ensures id !in old(users) ==> r == Err(UserNotFound(id))
      ensures id in old(users) ==>
              var u := old(users)[id];
              && (ChangesEmail(u, patch) && old(EmailExists(users, patch.email.value)) ==>
                    r == Err(EmailTaken(patch.email.value)))
              && (!(ChangesEmail(u, patch) && old(EmailExists(users, patch.email.value))) ==>
                    r == Ok(Merged(u, patch, now)) && users == old(users)[id := r.value])
    {
      r := UpdateProfile(id, patch, now);
      if r.Ok? {
        var user := r.value.(companyId := patch.companyId.OrElse(r.value.companyId));
        MergedExtendsProfile(old(users)[id], patch, now);
        ReplaceKeepsUnique(users, id, user);
        users := users[id := user];
        r := Ok(user);
      }
    }

    /** deleteUser: removes exactly the row `id`, or fails when there is none. */
    method Delete(id: int) returns (r: Result<()>)
      requires Valid()
      modifies this
      ensures Valid() && nextId == old(nextId)
      ensures id !in old(users) ==> r == Err(UserNotFound(id)) && users == old(users)
      ensures id in old(users) ==> r == Ok(()) && users == old(users) - {id}
    {
      if id !in users {
        return Err(UserNotFound(id));
      }
      users := users - {id};
      r := Ok(());
    }

    /** getUserById: the row filed under `id`, which carries that id. */
    function Get(id: int): (r: Option<User>)
      reads this
      requires Valid()
      ensures r.Some? <==> id in users
      ensures r.Some? ==> r.value == users[id] && r.value.id == id
    {
      if id in users then Some(users[id]) else None
    }

    /** getUserByUsername: the one user with this username, if any. */
    function GetByUsername(username: string): (r: Option<User>)
      reads this
      requires Valid()
      ensures r.Some? <==> UsernameExists(users, username)
      ensures r.Some? ==> r.value.id in users && users[r.value.id] == r.value && r.value.username == username
    {
      if UsernameExists(users, username) then
        var id :| id in users && users[id].username == username;
        Some(users[id])
      else
        None
    }

    /** getUsersByCompanyId (user-service): delegates to findByCompanyId. */
    function ByCompanyId(companyId: int): (r: map<int, User>)
      reads this
      ensures forall id :: id in r <==> id in users && users[id].companyId == Some(companyId)
      ensures forall id :: id in r ==> r[id] == users[id]
    {
      UsersByCompanyId(users, companyId)
    }
  }
}
