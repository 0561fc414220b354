/**
 * The Shift entity: its stored row, the request body it is deserialised
 * from, and the two persistence hooks that stamp its audit times and its
 * publication time.
 *
 * The monolith's entity refers to its user through a relation and the
 * shift-service's through a bare `userId`; both reduce to a user id here.
 */
module ShiftModel {
  import opened Wrappers

  /** How one JSON property of a request body arrives. */
  datatype Field<+T> = Omitted | Null | Given(value: T)

  /** A shift request body. */
  datatype ShiftBody = ShiftBody(
    userId: Ref,
    companyId: Ref,
    startTime: Field<int>,
    stopTime: Field<int>,
    published: Field<bool>,
    publishedAt: Field<int>)

  /** What the update service reads through the getters of a deserialised body; None is null. */
  datatype ShiftPatch = ShiftPatch(
    userId: Option<int>,
    companyId: Option<int>,
    startTime: Option<int>,
    stopTime: Option<int>,
    published: Option<bool>)

  /** A stored shift row. Times are instants on one integer clock. */
  datatype ShiftRecord = ShiftRecord(
    id: int,
    userId: int,
    companyId: int,
    startTime: int,
    stopTime: int,
    published: bool,
    publishedAt: Option<int>,
    createdAt: int,
    updatedAt: int)

  /** A reference-typed property with no initialiser: omitted and null both read as null. */
  function Nullable<T>(f: Field<T>): Option<T> {
    if f.Given? then Some(f.value) else None
  }

  /**
   * What bean validation (`@NotNull`) demands of a create body before the
   * service runs: the user and company objects and both times are present.
   * It does not look inside the objects, so either may lack its `id`.
   */
  predicate ValidForCreate(body: ShiftBody) {
    !body.userId.NullRef? && !body.companyId.NullRef? && body.startTime.Given? && body.stopTime.Given?
  }

  /**
   * The patch the update service sees. `published` is declared with the
   * initialiser `false`, so a body that omits it reads as "set published to
   * false"; only an explicit JSON null leaves the stored flag alone.
   */
  function Patch(body: ShiftBody): (p: ShiftPatch)
    ensures body.published.Omitted? ==> p.published == Some(false)
    ensures p.published.None? <==> body.published.Null?
    ensures body.published.Given? ==> p.published == Some(body.published.value)
    ensures p.userId.Some? <==> body.userId.RefTo?
    ensures p.companyId.Some? <==> body.companyId.RefTo?
    ensures body.userId.RefTo? ==> p.userId.value == body.userId.id
    ensures body.companyId.RefTo? ==> p.companyId.value == body.companyId.id
    ensures p.startTime.Some? <==> body.startTime.Given?
    ensures p.stopTime.Some? <==> body.stopTime.Given?
  {
    var published :=
      match body.published
      case Omitted => Some(false)
      case Null => None
      case Given(b) => Some(b);
    ShiftPatch(RefId(body.userId), RefId(body.companyId),
               Nullable(body.startTime), Nullable(body.stopTime), published)
  }

  /** What every stored row satisfies: it ends after it starts, and a published row has a publication time. */
  predicate Consistent(s: ShiftRecord) {
    s.startTime < s.stopTime && (s.published ==> s.publishedAt.Some?)
  }

  /**
   * The publication time a persistence hook leaves on a shift whose flag is
   * `published` and whose publication time was `publishedAt`.
   */
  function StampPublishedAt(published: bool, publishedAt: Option<int>, now: int): (r: Option<int>)
    ensures publishedAt.Some? ==> r == publishedAt
    ensures !published ==> r == publishedAt
    ensures published ==> r.Some?
    ensures published && publishedAt.None? ==> r == Some(now)
  {
    if published && publishedAt.None? then Some(now) else publishedAt
  }

  /**
   * The row updateShift saves when every check passes: each field the patch
   * gives replaces the stored one, then the update hook stamps the
   * publication time and the update time.
   */
  function Merged(s: ShiftRecord, p: ShiftPatch, now: int): (m: ShiftRecord)
    ensures m.id == s.id && m.createdAt == s.createdAt && m.updatedAt == now
    ensures s.publishedAt.Some? ==> m.publishedAt == s.publishedAt
    ensures m.published ==> m.publishedAt.Some?
    ensures Consistent(s) && p == ShiftPatch(None, None, None, None, None) ==> m == s.(updatedAt := now)
  {
    var published := p.published.GetOr(s.published);
    s.(userId := p.userId.GetOr(s.userId),
       companyId := p.companyId.GetOr(s.companyId),
       startTime := p.startTime.GetOr(s.startTime),
       stopTime := p.stopTime.GetOr(s.stopTime),
       published := published,
       publishedAt := StampPublishedAt(published, s.publishedAt, now),
       updatedAt := now)
  }

  /** A merge whose merged times are ordered stores a consistent row. */
  lemma MergedIsConsistent(s: ShiftRecord, p: ShiftPatch, now: int)
    requires p.startTime.GetOr(s.startTime) < p.stopTime.GetOr(s.stopTime)
    ensures Consistent(Merged(s, p, now))
  {
  }

  /**
   * An update body that leaves out `published` unpublishes the shift, and
   * keeps the publication time it had.
   */
  lemma OmittedPublishedUnpublishes(s: ShiftRecord, body: ShiftBody, now: int)
    requires body.published.Omitted?
    ensures !Merged(s, Patch(body), now).published
    ensures Merged(s, Patch(body), now).publishedAt == s.publishedAt
  {
  }

  /** Sending the same update again, later, changes only the update time. */
  lemma MergedTwiceOnlyRestamps(s: ShiftRecord, p: ShiftPatch, now: int, later: int)
    ensures Merged(Merged(s, p, now), p, later) == Merged(s, p, now).(updatedAt := later)
  {
  }

  /**
   * The publication time after a run of saves of one shift, starting from
   * `publishedAt`; `saves[i]` is the published flag the i-th save writes and
   * the instant its hook runs at.
   */
  function StampAll(publishedAt: Option<int>, saves: seq<(bool, int)>): Option<int>
    decreases |saves|
  {
    if saves == [] then publishedAt
    else StampAll(StampPublishedAt(saves[0].0, publishedAt, saves[0].1), saves[1..])
  }

  /** The instant of the first save that writes published = true, if there is one. */
  function FirstPublication(saves: seq<(bool, int)>): Option<int>
    decreases |saves|
  {
    if saves == [] then None
    else if saves[0].0 then Some(saves[0].1)
    else FirstPublication(saves[1..])
  }

  /**
   * Over any history of saves, the publication time is the one the shift
   * already had or else the instant it was first saved as published: it is
   * set once, and later saves (publishing again, or unpublishing) neither
   * clear nor move it.
   */
  lemma {:induction false} StampAllIsFirstPublication(publishedAt: Option<int>, saves: seq<(bool, int)>)
    ensures StampAll(publishedAt, saves) == if publishedAt.Some? then publishedAt else FirstPublication(saves)
    decreases |saves|
  {
    if saves != [] {
      StampAllIsFirstPublication(StampPublishedAt(saves[0].0, publishedAt, saves[0].1), saves[1..]);
    }
  }

  /** The managed Shift entity whose fields the service's setters and the hooks assign. */
  class Shift {
    var userId: int
    var companyId: int
    var startTime: int
    var stopTime: int
    var published: bool
    var publishedAt: Option<int>
    var createdAt: Option<int>
    var updatedAt: Option<int>

    /** The row this entity is saved as under identifier `id`. */
    function Row(id: int): ShiftRecord
      reads this
      requires createdAt.Some? && updatedAt.Some?
    {
      ShiftRecord(id, userId, companyId, startTime, stopTime, published, publishedAt,
                  createdAt.value, updatedAt.value)
    }

    /**
     * The entity deserialised from a create body: `published` keeps its
     * initialiser `false` unless the body sets it, a `publishedAt` in the body
     * is taken as it is, and the audit times are not yet set.
     */
    constructor FromBody(body: ShiftBody)
      requires ValidForCreate(body) && body.userId.RefTo? && body.companyId.RefTo? && !body.published.Null?
      ensures userId == body.userId.id && companyId == body.companyId.id
      ensures startTime == body.startTime.value && stopTime == body.stopTime.value
      ensures published == (body.published == Given(true))
      ensures body.published.Omitted? ==> !published
      ensures publishedAt == Nullable(body.publishedAt)
      ensures createdAt == None && updatedAt == None
    {
      userId := body.userId.id;
      companyId := body.companyId.id;
      startTime := body.startTime.value;
      stopTime := body.stopTime.value;
      published := false;
      if body.published.Given? {
        published := body.published.value;
      }
      publishedAt := Nullable(body.publishedAt);
      createdAt := None;
      updatedAt := None;
    }

    /** The entity loaded from a stored row. */
    constructor Load(row: ShiftRecord)
      ensures createdAt.Some? && updatedAt.Some?
      ensures Row(row.id) == row
    {
      userId := row.userId;
      companyId := row.companyId;
      startTime := row.startTime;
      stopTime := row.stopTime;
      published := row.published;
      publishedAt := row.publishedAt;
      createdAt := Some(row.createdAt);
      updatedAt := Some(row.updatedAt);
    }

    /** The insert hook: stamps both audit times, and the publication time if the shift is published without one. */
    method OnCreate(now: int)
      modifies this
      ensures createdAt == Some(now) && updatedAt == Some(now)
      ensures publishedAt == StampPublishedAt(published, old(publishedAt), now)
      ensures published ==> publishedAt.Some?
      ensures userId == old(userId) && companyId == old(companyId)
      ensures startTime == old(startTime) && stopTime == old(stopTime) && published == old(published)
    {
      createdAt := Some(now);
      updatedAt := Some(now);
      if published && publishedAt.None? {
        publishedAt := Some(now);
      }
    }

    /** The update hook: refreshes the update time only, and stamps the publication time as the insert hook does. */
    method OnUpdate(now: int)
      modifies this
      ensures updatedAt == Some(now) && createdAt == old(createdAt)
      ensures publishedAt == StampPublishedAt(published, old(publishedAt), now)
      ensures published ==> publishedAt.Some?
      ensures userId == old(userId) && companyId == old(companyId)
      ensures startTime == old(startTime) && stopTime == old(stopTime) && published == old(published)
    {
      updatedAt := Some(now);
      if published && publishedAt.None? {
        publishedAt := Some(now);
      }
    }
  }
}
