# Staffjoy domain services in Dafny

This project models the domain-service layer of the Staffjoy scheduling
system. It covers both the monolith (`src/main/java/com/staffjoy/...`) and
its split services: `shift-service` and `user-service`. That layer keeps
three keyed tables: shifts, companies and users. Each table supports
create, update (a partial merge of a request body), delete, lookups and
filter queries. Every write is guarded by existence, uniqueness and
time-ordering checks.

Modules:

- `Wrappers` (`wrappers.dfy`): `Option`, `Result`, and the `Error` values that stand for the services' `RuntimeException`s. It also holds `Ref`, how a reference to a user or company arrives in a body: `NullRef` (no object), `NullId` (an object without an `id`) or `RefTo(id)`.
- `ShiftModel` (`shift_model.dfy`): the Shift entity. It has:
  - the stored row `ShiftRecord`;
  - the JSON body `ShiftBody`, where each plain property is `Omitted`, `Null` or `Given`. Each reference to a user or company is a `Ref`;
  - what the update service reads from the body (`Patch`);
  - the entity class `Shift` with its `@PrePersist`/`@PreUpdate` hooks `OnCreate`/`OnUpdate`;
  - the publication-time rule `StampPublishedAt` and its history lemma;
  - `Merged`, the row a successful update saves.
- `ShiftQueries` (`shift_queries.dfy`): the `ShiftRepository` finders, as pure filters that return the sub-table of matching rows.
- `Shifts` (`shift_store.dfy`): `ShiftStore`, a class holding `map<int, ShiftRecord>` and the identifier counter. It implements `createShift`, `updateShift`, `deleteShift` and the read delegations of both ShiftService files. The difference between the two services is the `UserCheck` argument:
  - `CheckUserIn(userIds)`: the monolith looks the user up in its users table;
  - `TrustUserId`: the shift-service stores any user id unchecked.
- `Companies` (`company_store.dfy`): `CompanyStore`, serving both CompanyService files, whose code is identical.
- `Users` (`user_store.dfy`): `UserStore`:
  - `Create` takes a `CompanyLink`. `ResolveCompanyIn(companyIds)` is the monolith, whose company relation must refer to a stored company. `StoreCompanyId` is the user-service, which stores any `companyId`;
  - `UpdateProfile` is the monolith's `updateUser`;
  - `Update` is the user-service's `updateUser`, which also merges `companyId`;
  - `ByCompanyId` is the user-service's `getUsersByCompanyId`.
- `Scenarios` (`scenarios.dfy`): concrete call sequences whose outcomes the verifier checks through the stores' contracts. Examples:
  - publish, unpublish and republish;
  - an unknown user in each service;
  - a stop-time-only update;
  - contained versus overlapping windows;
  - duplicate names and emails;
  - a monolith user whose company is unknown or unsaved.

Modelling choices:

- Times are integers on one clock, and "now" is a parameter of every call that stamps a time.
- Every service class is `@Transactional`, so a failing call rolls back, even though the Java mutates the loaded entity before it throws. In the model a failing call never writes its table, and every store method states `r.Err? ==> table == old(table)`.
- Each store holds one table. A call that checks references into another table takes that table's identifiers as an argument: the `companyIds` of `ShiftStore.Create`/`Update` and of `ResolveCompanyIn`, and the `userIds` of `CheckUserIn`. The caller passes the keys of the `CompanyStore` or `UserStore` it works with, as the scenarios do (`companies.companies.Keys`, `users.users.Keys`).
- Stores keep an invariant `Valid()` that every method preserves:
  - each row is filed under its own id, below the counter;
  - every shift starts before it stops, and is stamped if published;
  - company names are distinct;
  - usernames are distinct, and so are emails.
- The `published` property is declared with the initialiser `false` (`src/main/java/com/staffjoy/model/Shift.java:51`). So an update body that leaves it out is read as "published = false", and the update unpublishes the shift. Only an explicit JSON `null` leaves the flag as stored. `Patch` and `OmittedPublishedUnpublishes` keep this literal behaviour visible.
- `createShift` keeps a `published: true` and a `publishedAt` sent in the create body. The insert hook stamps only an unset publication time.
- `updateShift` overwrites `published` whenever the body's value is not null, so a body that omits it unpublishes the shift.
- Bean validation checks only that the `user` and `company` objects of a shift body are non-null (src/main/java/com/staffjoy/model/Shift.java:31, :39). An object without an `id` therefore reaches `createShift`, whose `findById(null)` is refused by the repository. That failure is modelled as `Err(IdIsNull)`, with the table unchanged.
- A create body whose `published` is an explicit JSON `null` passes the service's checks. The insert hook then unboxes it, and the `NullPointerException` rolls the call back. This is modelled as `Err(PublishedIsNull)`, after the other checks.

## Model

| member | source | states |
|---|---|---|
| ShiftModel.Patch | src/main/java/com/staffjoy/model/Shift.java:50-51 | An omitted `published` reads as `Some(false)`, and only an explicit null reads as `None`. Any other property is present exactly when the body gives it. Same default at shift-service/src/main/java/com/staffjoy/shift/model/Shift.java:53. |
| ShiftModel.StampPublishedAt | src/main/java/com/staffjoy/model/Shift.java:69-71 | A set publication time is never overwritten, and unpublishing keeps it. Published implies set afterwards. The first stamp is `now`. Same rule at shift-service/src/main/java/com/staffjoy/shift/model/Shift.java:68-70 and :76-78. |
| ShiftModel.StampAllIsFirstPublication | src/main/java/com/staffjoy/model/Shift.java:65-83 | Over any sequence of saves, `publishedAt` is the time it already had, or else the instant of the first save with published = true. Later saves never clear or move it. |
| ShiftModel.Merged | src/main/java/com/staffjoy/service/ShiftService.java:109-142 | The merged row keeps its id and `createdAt`, and its update time is `now`. A set publication time survives, and a published row is stamped. An empty patch on a consistent row changes only `updatedAt`. |
| ShiftModel.MergedIsConsistent | src/main/java/com/staffjoy/service/ShiftService.java:131-135 | When the merged start precedes the merged stop, the merged row satisfies the stored-row invariant. The same check is at shift-service/src/main/java/com/staffjoy/shift/service/ShiftService.java:104-108. |
| ShiftModel.OmittedPublishedUnpublishes | src/main/java/com/staffjoy/service/ShiftService.java:137-140 | An update body that omits `published` saves the shift unpublished, with its old `publishedAt` unchanged. |
| ShiftModel.MergedTwiceOnlyRestamps | src/main/java/com/staffjoy/service/ShiftService.java:105-143 | Re-sending the same update later changes only `updatedAt`. |
| ShiftModel.Shift.FromBody | src/main/java/com/staffjoy/model/Shift.java:26-60 | A deserialised create body has `published` false unless the body sets it, keeps a given `publishedAt`, and has no audit times yet. |
| ShiftModel.Shift.Load | src/main/java/com/staffjoy/service/ShiftService.java:106-107 | The entity loaded by `findById` is saved back as exactly the stored row. |
| ShiftModel.Shift.OnCreate | src/main/java/com/staffjoy/model/Shift.java:65-72 | Sets both audit times to `now` and stamps `publishedAt` by the stamping rule. Leaves every other field alone. Published implies stamped afterwards. Twin at shift-service/src/main/java/com/staffjoy/shift/model/Shift.java:64-71. |
| ShiftModel.Shift.OnUpdate | src/main/java/com/staffjoy/model/Shift.java:77-83 | Refreshes `updatedAt` and never `createdAt`, and stamps `publishedAt` by the same rule. Twin at shift-service/src/main/java/com/staffjoy/shift/model/Shift.java:73-79. |
| ShiftQueries.FindByUserId | shift-service/src/main/java/com/staffjoy/shift/repository/ShiftRepository.java:21 | Exactly the stored rows of that user, unchanged. |
| ShiftQueries.FindByCompanyId | shift-service/src/main/java/com/staffjoy/shift/repository/ShiftRepository.java:26 | Exactly the stored rows of that company, unchanged. |
| ShiftQueries.FindByUserIdAndCompanyId | shift-service/src/main/java/com/staffjoy/shift/repository/ShiftRepository.java:31 | Exactly the stored rows of that user and that company. |
| ShiftQueries.FindShiftsBetween | shift-service/src/main/java/com/staffjoy/shift/repository/ShiftRepository.java:36-38 | Exactly the stored rows with `startTime >= from` and `stopTime <= to`. |
| ShiftQueries.FindUserShiftsBetween | shift-service/src/main/java/com/staffjoy/shift/repository/ShiftRepository.java:43-46 | Exactly the user's stored rows lying inside the window. |
| ShiftQueries.FindByPublishedTrue | shift-service/src/main/java/com/staffjoy/shift/repository/ShiftRepository.java:51 | Exactly the published stored rows. |
| ShiftQueries.PartialOverlapExcluded | shift-service/src/main/java/com/staffjoy/shift/repository/ShiftRepository.java:36 | A shift that overlaps the window but sticks out of it is not returned. |
| ShiftQueries.WiderWindowKeepsShifts | shift-service/src/main/java/com/staffjoy/shift/repository/ShiftRepository.java:36-38 | Widening the window keeps every shift found. |
| ShiftQueries.ReversedWindowIsEmpty | shift-service/src/main/java/com/staffjoy/shift/repository/ShiftRepository.java:36 | When every stored shift starts before it stops, a window with `to <= from` finds nothing. |
| ShiftQueries.UserShiftsBetweenIsRestriction | shift-service/src/main/java/com/staffjoy/shift/repository/ShiftRepository.java:43-46 | The user's window query equals the window query filtered by user. |
| ShiftQueries.UserAndCompanyIsIntersection | shift-service/src/main/java/com/staffjoy/shift/repository/ShiftRepository.java:21-31 | The user-and-company finder returns the intersection of the two single finders. |
| ShiftQueries.PublishedShiftsAreStamped | shift-service/src/main/java/com/staffjoy/shift/repository/ShiftRepository.java:51 | Over consistent rows, every published shift found has a publication time. |
| Shifts.MergePatch | src/main/java/com/staffjoy/service/ShiftService.java:109-140 | The first failing check is reported, in source order: user (monolith only), company, merged start before stop. On success each field is the given value or the stored one. The shift-service setters are at shift-service/src/main/java/com/staffjoy/shift/service/ShiftService.java:84-113. |
| Shifts.ShiftStore.constructor | src/main/java/com/staffjoy/model/Shift.java:22-24 | An empty valid table whose generated ids start at 1. |
| Shifts.UserError | src/main/java/com/staffjoy/service/ShiftService.java:42-43 | The monolith fails on a user object without an id (`IdIsNull`) or an unknown user (`UserNotFound`), and accepts exactly the stored users. The shift-service accepts any user (shift-service/src/main/java/com/staffjoy/shift/service/ShiftService.java:49-50). |
| Shifts.CompanyError | src/main/java/com/staffjoy/service/ShiftService.java:46-47 | A company object without an id fails with `IdIsNull`, and an unknown company with `CompanyNotFound`. Exactly the stored companies are accepted. Same lookup at shift-service/src/main/java/com/staffjoy/shift/service/ShiftService.java:39-40. |
| Shifts.ShiftStore.Create | src/main/java/com/staffjoy/service/ShiftService.java:40-60 | Error cases, in source order: the user lookup (monolith only), the company lookup, `stop <= start`, or a null `published`; each leaves the table unchanged. Otherwise exactly one row is added under a fresh id, and all others are kept. The shift-service version is at shift-service/src/main/java/com/staffjoy/shift/service/ShiftService.java:37-53. |
| Shifts.ShiftStore.Update | src/main/java/com/staffjoy/service/ShiftService.java:105-143 | An unknown id fails. A given user (monolith) or company must exist. The merged times must be ordered. Any failure leaves the table unchanged. Otherwise only row `id` is replaced, by `Merged`. The shift-service version is at shift-service/src/main/java/com/staffjoy/shift/service/ShiftService.java:80-116. |
| Shifts.ShiftStore.Delete | src/main/java/com/staffjoy/service/ShiftService.java:148-153 | An unknown id fails with no change. Otherwise exactly that id is removed. Twin at shift-service/src/main/java/com/staffjoy/shift/service/ShiftService.java:118-123. |
| Shifts.ShiftStore.Get | src/main/java/com/staffjoy/service/ShiftService.java:65-68 | Some row exactly when the id is stored, and that row carries the id and is consistent. |
| Shifts.ShiftStore.ShiftsByUserId | src/main/java/com/staffjoy/service/ShiftService.java:81-84 | A row is returned exactly when it is stored with that user id, and it is returned unchanged. |
| Shifts.ShiftStore.ShiftsByCompanyId | src/main/java/com/staffjoy/service/ShiftService.java:89-92 | A row is returned exactly when it is stored with that company id, and it is returned unchanged. |
| Shifts.ShiftStore.ShiftsBetween | src/main/java/com/staffjoy/service/ShiftService.java:97-100 | Delegates to `findShiftsBetween`. A reversed or empty window returns nothing. |
| Companies.Merged | src/main/java/com/staffjoy/service/CompanyService.java:69-93 | Keeps the id and `createdAt`, and stamps `updatedAt`. The name changes only by a rename to the given name. An empty patch changes only `updatedAt`. |
| Companies.MergedTwiceOnlyRestamps | src/main/java/com/staffjoy/service/CompanyService.java:65-94 | Re-sending the same update later changes only `updatedAt`. |
| Companies.InsertKeepsNamesDistinct | src/main/java/com/staffjoy/service/CompanyService.java:29-36 | Adding a company with an unused name under a fresh id keeps names pairwise distinct. |
| Companies.ReplaceKeepsNamesDistinct | src/main/java/com/staffjoy/service/CompanyService.java:70-76 | Replacing a company by one with its own name, or with an unused name, keeps names distinct. |
| Companies.CompanyStore.constructor | src/main/java/com/staffjoy/model/Company.java:24-26 | An empty valid table whose generated ids start at 1. |
| Companies.CompanyStore.Create | src/main/java/com/staffjoy/service/CompanyService.java:29-36 | A used name fails with no change. Otherwise exactly one row is added under a fresh id, and names stay distinct. Twin at shift-service/src/main/java/com/staffjoy/shift/service/CompanyService.java:26-31. |
| Companies.CompanyStore.Update | src/main/java/com/staffjoy/service/CompanyService.java:65-94 | An unknown id fails. Renaming to a name another company holds fails with no change. Re-sending the company's own name is no rename. Otherwise only row `id` is replaced, by `Merged`. Twin at shift-service/src/main/java/com/staffjoy/shift/service/CompanyService.java:48-75. |
| Companies.CompanyStore.Delete | src/main/java/com/staffjoy/service/CompanyService.java:99-104 | An unknown id fails with no change. Otherwise exactly that id is removed. Twin at shift-service/src/main/java/com/staffjoy/shift/service/CompanyService.java:77-82. |
| Companies.CompanyStore.Get | src/main/java/com/staffjoy/service/CompanyService.java:41-44 | Some row exactly when the id is stored, and that row carries the id. |
| Companies.CompanyStore.GetByName | src/main/java/com/staffjoy/service/CompanyService.java:49-52 | Some company exactly when the name is used, and the one returned is stored with that name. |
| Users.UsersByCompanyId | user-service/src/main/java/com/staffjoy/user/service/UserService.java:70-73 | Exactly the stored users whose `companyId` is the given one, unchanged. |
| Users.MergedProfile | src/main/java/com/staffjoy/service/UserService.java:79-94 | Keeps the id, username, company and `createdAt`, and stamps `updatedAt`. The email changes only to a given, different email. |
| Users.Merged | user-service/src/main/java/com/staffjoy/user/service/UserService.java:82-100 | Keeps the id, username and `createdAt`, and stamps `updatedAt`. The email changes only to a given, different email. |
| Users.MergedExtendsProfile | user-service/src/main/java/com/staffjoy/user/service/UserService.java:96-98 | The user-service merge is the monolith's merge plus the `companyId` setter. With no company given, the two coincide. |
| Users.MergedTwiceOnlyRestamps | src/main/java/com/staffjoy/service/UserService.java:75-95 | Re-sending the same update later changes only `updatedAt`, for both merges. |
| Users.InsertKeepsUnique | src/main/java/com/staffjoy/service/UserService.java:34-46 | Adding a user with an unused username and email under a fresh id keeps both unique. |
| Users.ReplaceKeepsUnique | src/main/java/com/staffjoy/service/UserService.java:83-89 | Replacing a user by one with the same username, keeping its email or taking an unused one, keeps both unique. |
| Users.UserStore.constructor | src/main/java/com/staffjoy/model/User.java:25-27 | An empty valid table whose generated ids start at 1. |
| Users.CompanyLinkError | src/main/java/com/staffjoy/model/User.java:49-51 | In the monolith, a user's company must be absent or a stored company: an object without an id fails as unsaved, and an unknown id fails as not found. The user-service accepts any `companyId` (user-service/src/main/java/com/staffjoy/user/model/User.java:48-49). |
| Users.UserStore.Create | src/main/java/com/staffjoy/service/UserService.java:34-46 | A used username fails first, then a used email. The save then fails on a company reference `CompanyLinkError` refuses. Each failure leaves the table unchanged. Otherwise exactly one row is added under a fresh id, holding the body's company id. Twin at user-service/src/main/java/com/staffjoy/user/service/UserService.java:29-41. |
| Users.UserStore.UpdateProfile | src/main/java/com/staffjoy/service/UserService.java:75-95 | An unknown id fails. Changing the email to one another user holds fails with no change, while re-sending the own email is accepted. Otherwise only row `id` is replaced, by `MergedProfile`, and the username is never changed. |
| Users.UserStore.Update | user-service/src/main/java/com/staffjoy/user/service/UserService.java:78-101 | Same checks as `UpdateProfile`. On success the row is `Merged`, which also takes a given `companyId`. |
| Users.UserStore.Delete | src/main/java/com/staffjoy/service/UserService.java:100-105 | An unknown id fails with no change. Otherwise exactly that id is removed. Twin at user-service/src/main/java/com/staffjoy/user/service/UserService.java:106-111. |
| Users.UserStore.Get | src/main/java/com/staffjoy/service/UserService.java:51-54 | Some row exactly when the id is stored, and that row carries the id. |
| Users.UserStore.GetByUsername | src/main/java/com/staffjoy/service/UserService.java:59-62 | Some user exactly when the username is used, and the one returned is stored with that username. |
| Users.UserStore.ByCompanyId | user-service/src/main/java/com/staffjoy/user/service/UserService.java:70-73 | A user is returned exactly when it is stored with that company id, and it is returned unchanged. |

## Left out

- Controllers, HTTP routing and status codes, the application entry points, the gateway, the configuration and discovery servers, and the Feign `UserServiceClient`. The service code modelled here does not call the client.
- Bean validation runs before the services: `@NotNull`, `@NotBlank` and `@Email`. Create bodies are taken as validated. For shifts, this is the `ValidatedForCreate` precondition: the `user` and `company` objects (or the shift-service's `userId` number) and both times are non-null. An object without an `id` is not excluded; it is modelled as `Err(IdIsNull)`. For companies and users, the fields bean validation makes non-null (a company's name; a user's username, email and name) are plain strings in the drafts. The user-service's `companyId` is a number, so `Users.UserStore.Create` requires that its body has no company object without an id. Email syntax and blankness are not modelled.
- The controllers also put `@Valid` on update bodies, so over HTTP the `@NotNull` shift properties are always present on update as well. The model handles every combination, as the service code does.
- `getAll*`: each returns the whole table, which is the store's field itself.
- Result lists are unordered here: queries return sub-tables keyed by id.
- `Shifts.ShiftStore.Create`: a create body that carries an `id` is saved through JPA's merge instead of as a new row. The model always inserts under a fresh id.
- `Companies.CompanyStore.Create`: the same client-supplied `id` case is not modelled.
- `Users.UserStore.Create`: the same client-supplied `id` case is not modelled.
- `Companies.CompanyStore.Delete`: does not model the monolith's `CascadeType.ALL` from a company to its users and shifts (src/main/java/com/staffjoy/model/Company.java:58-65), nor the shift-service's cascade from a company to its shifts (shift-service/src/main/java/com/staffjoy/shift/model/Company.java:57-58). The tables are separate stores here, so deleting a company removes only its own row.
- `Users.UserStore.Delete`: does not model the monolith's cascade that deletes the user's shifts (src/main/java/com/staffjoy/model/User.java:56-57). The user-service has no shifts table.
- `ShiftModel.Shift.OnUpdate`: runs on every successful update, whereas Hibernate fires `@PreUpdate` only when its dirty check finds a change. The user and company stores likewise always stamp `updatedAt` on update.
- The Java hooks call `LocalDateTime.now()` separately for each field, so `createdAt`, `updatedAt` and `publishedAt` may differ by a few nanoseconds. The model uses one `now` per call.
- Concurrency: two transactions racing between an existence check and the insert are not modelled. Each call is one atomic step.
- The database's own `unique = true` constraints on company names, usernames and emails are not modelled separately. The service checks, modelled here, reject the same inputs first.
- Identifiers and times are unbounded integers. `Long` overflow of the identity counter is not modelled.
