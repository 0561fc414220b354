/**
 * The shift service: the shifts table with its fresh-identifier counter, and
 * the create, update and delete operations of both the monolith's
 * ShiftService and the shift-service's ShiftService.
 *
 * The two services differ in one point only: the monolith resolves the
 * shift's user in its own users table, while the shift-service stores the
 * user id it is given, because users live in another service. `UserCheck`
 * names which of the two a call follows. The companies a shift may refer to
 * are passed in as a set of identifiers; a caller holding the companies
 * table passes its keys (`CompanyStore.companies.Keys`), and likewise the
 * users table's keys to `CheckUserIn`.
 *
 * Both services run every public method in one transaction, so a call that
 * throws leaves the tables as they were; here a failing call simply never
 * writes the table.
 */
module Shifts {
  import opened Wrappers
  import opened ShiftModel
  import ShiftQueries

  /** How a service treats the user a shift refers to. */
  datatype UserCheck =
    | CheckUserIn(userIds: set<int>)  // the monolith: the user must be a stored user
    | TrustUserId                     // the shift-service: any user id is accepted unchecked

  /** Whether `check` lets a shift refer to user `userId`. */
  predicate UserAccepted(check: UserCheck, userId: int) {
    check.TrustUserId? || userId in check.userIds
  }

  /**
   * What bean validation demands of a create body under each service: the
   * user and company objects and both times are present, and the
   * shift-service's `userId`, a plain number, is present as well.
   */
  predicate ValidatedForCreate(body: ShiftBody, check: UserCheck) {
    ValidForCreate(body) && (check.TrustUserId? ==> body.userId.RefTo?)
  }

  /**
   * The exception createShift throws while resolving the shift's user, if
   * any: the monolith looks the id up, and a missing id or an unknown user
   * fails; the shift-service resolves nothing.
   */
  function UserError(check: UserCheck, user: Ref): (e: Option<Error>)
    ensures e.None? <==> check.TrustUserId? || (user.RefTo? && user.id in check.userIds)
    ensures check.CheckUserIn? && user.RefTo? && user.id !in check.userIds ==> e == Some(UserNotFound(user.id))
    ensures check.CheckUserIn? && !user.RefTo? ==> e == Some(IdIsNull)
  {
    match check
    case TrustUserId => None
    case CheckUserIn(userIds) =>
      if !user.RefTo? then Some(IdIsNull)
      else if user.id in userIds then None
      else Some(UserNotFound(user.id))
  }

  /**
   * The exception createShift throws while resolving the shift's company, if
   * any: a missing id or an unknown company fails, in both services.
   */
  function CompanyError(companyIds: set<int>, company: Ref): (e: Option<Error>)
    ensures e.None? <==> company.RefTo? && company.id in companyIds
    ensures company.RefTo? && company.id !in companyIds ==> e == Some(CompanyNotFound(company.id))
    ensures !company.RefTo? ==> e == Some(IdIsNull)
  {
    if !company.RefTo? then Some(IdIsNull)
    else if company.id in companyIds then None
    else Some(CompanyNotFound(company.id))
  }

  /**
   * The setter block of updateShift, applied to the loaded entity: the user
   * (checked under CheckUserIn) and the company (always checked) when given,
   * then the start and stop times when given, then the check that the merged
   * start precedes the merged stop, then the published flag when given. The
   * first check that fails is reported; the caller then discards the entity.
   */
  method MergePatch(shift: Shift, p: ShiftPatch, users: UserCheck, companyIds: set<int>) returns (failure: Option<Error>)
    modifies shift
    ensures var userOk := p.userId.None? || UserAccepted(users, p.userId.value);
            var companyOk := p.companyId.None? || p.companyId.value in companyIds;
            var start, stop := p.startTime.GetOr(old(shift.startTime)), p.stopTime.GetOr(old(shift.stopTime));
            && (!userOk ==> failure == Some(UserNotFound(p.userId.value)))
            && (userOk && !companyOk ==> failure == Some(CompanyNotFound(p.companyId.value)))
            && (userOk && companyOk && stop <= start ==> failure == Some(StartNotBeforeStop))
            && (failure.None? <==> userOk && companyOk && start < stop)
    ensures failure.None? ==>
            && shift.userId == p.userId.GetOr(old(shift.userId))
            && shift.companyId == p.companyId.GetOr(old(shift.companyId))
            && shift.startTime == p.startTime.GetOr(old(shift.startTime))
            && shift.stopTime == p.stopTime.GetOr(old(shift.stopTime))
            && shift.published == p.published.GetOr(old(shift.published))
            && shift.publishedAt == old(shift.publishedAt)
            && shift.createdAt == old(shift.createdAt) && shift.updatedAt == old(shift.updatedAt)
  {
    if p.userId.Some? {
      if !UserAccepted(users, p.userId.value) {
        return Some(UserNotFound(p.userId.value));
      }
      shift.userId := p.userId.value;
    }
    if p.companyId.Some? {
      if p.companyId.value !in companyIds {
        return Some(CompanyNotFound(p.companyId.value));
      }
      shift.companyId := p.companyId.value;
    }
    if p.startTime.Some? {
      shift.startTime := p.startTime.value;
    }
    if p.stopTime.Some? {
      shift.stopTime := p.stopTime.value;
    }
    if shift.stopTime <= shift.startTime {
      return Some(StartNotBeforeStop);
    }
    if p.published.Some? {
      shift.published := p.published.value;
    }
    failure := None;
  }

  class ShiftStore {
    var shifts: map<int, ShiftRecord>
    var nextId: int

    /** Every row is filed under its own identifier, below the counter, and is consistent. */
    ghost predicate Valid()
      reads this
    {
      forall id :: id in shifts ==> shifts[id].id == id && id < nextId && Consistent(shifts[id])
    }

    /** An empty table; identifiers are generated from 1. */
    constructor ()
      ensures Valid() && shifts == map[] && nextId == 1
    {
      shifts := map[];
      nextId := 1;
    }

    /**
     * createShift. Checks, in this order, the user (under CheckUserIn only:
     * a user object without an id or an unknown user fails), the company (a
     * company object without an id or an unknown company fails), and start
     * strictly before stop; then the insert hook runs (a null `published`
     * fails there) and the row is added under a fresh id.
     */
    method Create(body: ShiftBody, users: UserCheck, companyIds: set<int>, now: int) returns (r: Result<ShiftRecord>)
      requires Valid()
      requires ValidatedForCreate(body, users)
      modifies this
      ensures Valid()
      ensures var userError, companyError := UserError(users, body.userId), CompanyError(companyIds, body.companyId);
              var start, stop := body.startTime.value, body.stopTime.value;
              && (userError.Some? ==> r == Err(userError.value))
              && (userError.None? && companyError.Some? ==> r == Err(companyError.value))
              && (userError.None? && companyError.None? && stop <= start ==> r == Err(StartNotBeforeStop))
              && (userError.None? && companyError.None? && start < stop && body.published.Null? ==>
                    r == Err(PublishedIsNull))
              && (r.Ok? <==> userError.None? && companyError.None? && start < stop && !body.published.Null?)
      ensures r.Err? ==> shifts == old(shifts) && nextId == old(nextId)
      ensures r.Ok? ==>
              && r.value.id == old(nextId) && r.value.id !in old(shifts)
              && shifts == old(shifts)[r.value.id := r.value]
              && nextId == old(nextId) + 1
              && r.value.userId == body.userId.id && r.value.companyId == body.companyId.id
              && r.value.startTime == body.startTime.value && r.value.stopTime == body.stopTime.value
              && r.value.published == (body.published == Given(true))
              && r.value.publishedAt == StampPublishedAt(r.value.published, Nullable(body.publishedAt), now)
              && r.value.createdAt == now && r.value.updatedAt == now
    {
      var userError := UserError(users, body.userId);
      if userError.Some? {
        return Err(userError.value);
      }
      var companyError := CompanyError(companyIds, body.companyId);
      if companyError.Some? {
        return Err(companyError.value);
      }
      if body.stopTime.value <= body.startTime.value {
        return Err(StartNotBeforeStop);
      }
      // The insert hook unboxes `published`; an explicit JSON null makes it throw.
      if body.published.Null? {
        return Err(PublishedIsNull);
      }
      var shift := new Shift.FromBody(body);
      shift.OnCreate(now);
      var row := shift.Row(nextId);
      shifts := shifts[nextId := row];
      nextId := nextId + 1;
      r := Ok(row);
    }

    /**
     * updateShift: a field-by-field merge of the patch read from `body` into
     * the stored row. A given user (under CheckUserIn) or company must exist;
     * start before stop is checked on the merged times; the update hook runs
     * on the merged row.
     */
    method Update(id: int, body: ShiftBody, users: UserCheck, companyIds: set<int>, now: int) returns (r: Result<ShiftRecord>)
      requires Valid()
      modifies this
      ensures Valid() && nextId == old(nextId)
      ensures r.Err? ==> shifts == old(shifts)
      ensures r.Ok? ==> id in old(shifts) && shifts == old(shifts)[id := r.value]
      ensures id !in old(shifts) ==> r == Err(ShiftNotFound(id))
      ensures id in old(shifts) ==>
              var s, p := old(shifts)[id], Patch(body);
              var userOk := p.userId.None? || UserAccepted(users, p.userId.value);
              var companyOk := p.companyId.None? || p.companyId.value in companyIds;
              var start, stop := p.startTime.GetOr(s.startTime), p.stopTime.GetOr(s.stopTime);
              && (!userOk ==> r == Err(UserNotFound(p.userId.value)))
              && (userOk && !companyOk ==> r == Err(CompanyNotFound(p.companyId.value)))
              && (userOk && companyOk && stop <= start ==> r == Err(StartNotBeforeStop))
              && (userOk && companyOk && start < stop ==> r == Ok(Merged(s, p, now)))
    {
      if id !in shifts {
        return Err(ShiftNotFound(id));
      }
      var s := shifts[id];
      var shift := new Shift.Load(s);
      var failure := MergePatch(shift, Patch(body), users, companyIds);
      if failure.Some? {
        return Err(failure.value);
      }
      shift.OnUpdate(now);
      var row := shift.Row(id);
      shifts := shifts[id := row];
      r := Ok(row);
    }

    /** deleteShift: removes exactly the row `id`, or fails when there is none. */
    method Delete(id: int) returns (r: Result<()>)
      requires Valid()
      modifies this
      ensures Valid() && nextId == old(nextId)
      ensures id !in old(shifts) ==> r == Err(ShiftNotFound(id)) && shifts == old(shifts)
      ensures id in old(shifts) ==> r == Ok(()) && shifts == old(shifts) - {id}
    {
      if id !in shifts {
        return Err(ShiftNotFound(id));
      }
      shifts := shifts - {id};
      r := Ok(());
    }

    /** getShiftById: the row filed under `id`, which carries that id and is consistent. */
    function Get(id: int): (r: Option<ShiftRecord>)
      reads this
      requires Valid()
      ensures r.Some? <==> id in shifts
      ensures r.Some? ==> r.value == shifts[id] && r.value.id == id && Consistent(r.value)
    {
      if id in shifts then Some(shifts[id]) else None
    }

    /** getShiftsByUserId: delegates to findByUserId. */
    function ShiftsByUserId(userId: int): (r: ShiftQueries.Table)
      reads this
      ensures forall id :: id in r <==> id in shifts && shifts[id].userId == userId
      ensures forall id :: id in r ==> r[id] == shifts[id]
    {
      ShiftQueries.FindByUserId(shifts, userId)
    }

    /** getShiftsByCompanyId: delegates to findByCompanyId. */
    function ShiftsByCompanyId(companyId: int): (r: ShiftQueries.Table)
      reads this
      ensures forall id :: id in r <==> id in shifts && shifts[id].companyId == companyId
      ensures forall id :: id in r ==> r[id] == shifts[id]
    {
      ShiftQueries.FindByCompanyId(shifts, companyId)
    }

    /**
     * getShiftsBetween: delegates to findShiftsBetween; since every stored
     * shift ends after it starts, an empty or reversed window finds nothing.
     */
    function ShiftsBetween(from: int, to: int): (r: ShiftQueries.Table)
      reads this
      requires Valid()
      ensures r == ShiftQueries.FindShiftsBetween(shifts, from, to)
      ensures to <= from ==> r == map[]
    {
      if to <= from then
        ShiftQueries.ReversedWindowIsEmpty(shifts, from, to);
        ShiftQueries.FindShiftsBetween(shifts, from, to)
      else
        ShiftQueries.FindShiftsBetween(shifts, from, to)
    }
  }
}
