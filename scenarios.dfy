/**
 * Concrete call sequences against the stores, each checked by the verifier
 * through the stores' contracts alone.
 */
module Scenarios {
  import opened Wrappers
  import opened ShiftModel
  import opened Shifts
  import Companies
  import Users

  /** A body that sets nothing: every property left out of the JSON. */
  const EmptyBody := ShiftBody(NullRef, NullRef, Omitted, Omitted, Omitted, Omitted)

  /** A companies table holding one company, whose identifier is returned. */
  method OneCompany() returns (companies: Companies.CompanyStore, acme: int)
    ensures fresh(companies) && companies.Valid() && companies.companies.Keys == {acme}
  {
    companies := new Companies.CompanyStore();
    var created := companies.Create(Companies.CompanyDraft("Acme", None, None, None, None, None), 1);
    acme := created.value.id;
  }

  /**
   * A shift created as published is stamped at creation; an update that
   * leaves out `published` unpublishes it and keeps the stamp; publishing it
   * again later does not move the stamp.
   */
  method PublishUnpublishRepublish() {
    var companies, acme := OneCompany();
    var store := new ShiftStore();
    var body := ShiftBody(RefTo(1), RefTo(acme), Given(100), Given(200), Given(true), Omitted);
    var created := store.Create(body, TrustUserId, companies.companies.Keys, 5);
    assert created.Ok? && created.value.publishedAt == Some(5);
    var id := created.value.id;

    var unpublished := store.Update(id, EmptyBody, TrustUserId, companies.companies.Keys, 7);
    assert unpublished.Ok? && !unpublished.value.published && unpublished.value.publishedAt == Some(5);

    var republished := store.Update(id, EmptyBody.(published := Given(true)), TrustUserId, companies.companies.Keys, 9);
    assert republished.Ok? && republished.value.published && republished.value.publishedAt == Some(5);
    assert republished.value.createdAt == 5 && republished.value.updatedAt == 9;
  }

  /**
   * The monolith rejects a shift for a user it does not store; the
   * shift-service accepts the same body.
   */
  method UnknownUserDependsOnService() {
    var companies, acme := OneCompany();
    var users := new Users.UserStore();
    var ann := users.Create(Users.UserDraft("ann", "ann@x", "Ann", None, RefTo(acme)),
                            Users.ResolveCompanyIn(companies.companies.Keys), 2);
    assert users.users.Keys == {ann.value.id};
    var stranger := ann.value.id + 42;
    var store := new ShiftStore();
    var body := ShiftBody(RefTo(stranger), RefTo(acme), Given(100), Given(200), Omitted, Omitted);
    var monolith := store.Create(body, CheckUserIn(users.users.Keys), companies.companies.Keys, 5);
    assert monolith == Err(UserNotFound(stranger)) && store.shifts == map[];
    var service := store.Create(body, TrustUserId, companies.companies.Keys, 5);
    assert service.Ok? && service.value.userId == stranger && !service.value.published;
  }

  /**
   * A company object without an id passes bean validation, and the lookup by
   * its null id fails, in both services; a monolith user object without an
   * id fails the same way, first.
   */
  method ReferenceWithoutId() {
    var companies, acme := OneCompany();
    var store := new ShiftStore();
    var body := ShiftBody(RefTo(1), NullId, Given(100), Given(200), Omitted, Omitted);
    var service := store.Create(body, TrustUserId, companies.companies.Keys, 5);
    assert service == Err(IdIsNull) && store.shifts == map[];
    var monolith := store.Create(body.(userId := NullId, companyId := RefTo(acme + 1)), CheckUserIn({1}),
                                 companies.companies.Keys, 5);
    assert monolith == Err(IdIsNull) && store.shifts == map[];
  }

  /**
   * Changing only the stop time is checked against the stored start time;
   * the rejected update leaves the row as it was.
   */
  method StopTimeCheckedAgainstStoredStart() {
    var companies, acme := OneCompany();
    var store := new ShiftStore();
    var body := ShiftBody(RefTo(1), RefTo(acme), Given(100), Given(200), Omitted, Omitted);
    var created := store.Create(body, TrustUserId, companies.companies.Keys, 5);
    var id := created.value.id;
    var before := store.shifts;
    var rejected := store.Update(id, EmptyBody.(stopTime := Given(100)), TrustUserId, companies.companies.Keys, 7);
    assert rejected == Err(StartNotBeforeStop) && store.shifts == before;
    var accepted := store.Update(id, EmptyBody.(stopTime := Given(101)), TrustUserId, companies.companies.Keys, 7);
    assert accepted.Ok? && accepted.value.startTime == 100 && accepted.value.stopTime == 101;
  }

  /** A window query returns the shift it contains and not the one it only overlaps. */
  method ContainedNotOverlapping() {
    var companies, acme := OneCompany();
    var store := new ShiftStore();
    var inside := store.Create(ShiftBody(RefTo(1), RefTo(acme), Given(100), Given(200), Omitted, Omitted),
                               TrustUserId, companies.companies.Keys, 5);
    var across := store.Create(ShiftBody(RefTo(1), RefTo(acme), Given(150), Given(300), Omitted, Omitted),
                               TrustUserId, companies.companies.Keys, 5);
    var found := store.ShiftsBetween(100, 250);
    assert inside.value.id in found;
    assert across.value.id !in found;
    var nothing := store.ShiftsBetween(250, 100);
    assert nothing == map[];
  }

  /**
   * A second company may not take a stored name, by create or by rename;
   * resending a company's own name is no rename.
   */
  method CompanyNamesStayUnique() {
    var store := new Companies.CompanyStore();
    var none := Companies.CompanyDraft("Acme", None, None, None, None, None);
    var acme := store.Create(none, 1);
    var twin := store.Create(none, 2);
    assert twin == Err(CompanyNameTaken("Acme"));
    var other := store.Create(none.(name := "Globex"), 3);
    assert store.companies[acme.value.id].name == "Acme";
    var clash := store.Update(other.value.id, Companies.CompanyPatch(Some("Acme"), None, None, None, None, None), 4);
    assert clash == Err(CompanyNameTaken("Acme"));
    var same := store.Update(acme.value.id, Companies.CompanyPatch(Some("Acme"), Some("Acme Ltd"), None, None, None, None), 5);
    assert same.Ok? && same.value.name == "Acme" && same.value.legalName == Some("Acme Ltd");
  }

  /**
   * A second user may not take a stored username or email; an update may
   * keep its own email but not take another user's; a deleted user is gone.
   */
  method UserIdentitiesStayUnique() {
    var store := new Users.UserStore();
    var ann := store.Create(Users.UserDraft("ann", "ann@x", "Ann", None, NullRef), Users.StoreCompanyId, 1);
    var again := store.Create(Users.UserDraft("ann", "other@x", "Ann", None, NullRef), Users.StoreCompanyId, 2);
    assert again == Err(UsernameTaken("ann"));
    var bob := store.Create(Users.UserDraft("bob", "ann@x", "Bob", None, NullRef), Users.StoreCompanyId, 3);
    assert bob == Err(EmailTaken("ann@x"));
    bob := store.Create(Users.UserDraft("bob", "bob@x", "Bob", None, NullRef), Users.StoreCompanyId, 4);

    assert store.users[ann.value.id].email == "ann@x";
    var steal := store.Update(bob.value.id, Users.UserPatch(None, Some("ann@x"), None, Some(7)), 5);
    assert steal == Err(EmailTaken("ann@x"));
    var keep := store.Update(bob.value.id, Users.UserPatch(None, Some("bob@x"), None, Some(7)), 6);
    assert keep.Ok? && keep.value.username == "bob" && keep.value.companyId == Some(7);
    assert store.ByCompanyId(7) == map[bob.value.id := keep.value];

    var gone := store.Delete(ann.value.id);
    assert gone.Ok? && store.Get(ann.value.id) == None;
    var twice := store.Delete(ann.value.id);
    assert twice == Err(UserNotFound(ann.value.id));
  }

  /**
   * The monolith saves a user's company as a reference to a stored company:
   * an unknown company or one never saved makes the save fail, with no row
   * added; the user-service stores any company number.
   */
  method UserCompanyMustBeStored() {
    var companies, acme := OneCompany();
    var link := Users.ResolveCompanyIn(companies.companies.Keys);
    var store := new Users.UserStore();
    var unknown := store.Create(Users.UserDraft("ann", "ann@x", "Ann", None, RefTo(acme + 1)), link, 1);
    assert unknown == Err(CompanyNotFound(acme + 1)) && store.users == map[];
    var unsaved := store.Create(Users.UserDraft("ann", "ann@x", "Ann", None, NullId), link, 2);
    assert unsaved == Err(UnsavedReference) && store.users == map[];
    var ann := store.Create(Users.UserDraft("ann", "ann@x", "Ann", None, RefTo(acme)), link, 3);
    assert ann.Ok? && ann.value.companyId == Some(acme);

    var service := new Users.UserStore();
    var bob := service.Create(Users.UserDraft("bob", "bob@x", "Bob", None, RefTo(acme + 1)), Users.StoreCompanyId, 4);
    assert bob.Ok? && bob.value.companyId == Some(acme + 1);
  }
}
