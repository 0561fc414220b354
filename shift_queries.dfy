/**
 * The shift-service's ShiftRepository finders, as filters over the stored
 * table. Spring derives the `findBy...` queries from their names and the
 * two range queries carry their own JPQL; each returns the matching rows
 * unchanged and in no particular order, so a result is modelled as the
 * sub-table of matching rows.
 */
module ShiftQueries {
  import opened ShiftModel

  /** The shifts table: stored rows by identifier. */
  type Table = map<int, ShiftRecord>

  /** Every row of `sub` is a row of `table`, unchanged. */
  ghost predicate DrawnFrom(sub: Table, table: Table) {
    forall id :: id in sub ==> id in table && sub[id] == table[id]
  }

  /** The range condition `startTime >= :startTime AND stopTime <= :stopTime`: the shift lies wholly inside [from, to]. */
  predicate Within(s: ShiftRecord, from: int, to: int) {
    from <= s.startTime && s.stopTime <= to
  }

  /** findByUserId. */
  function FindByUserId(table: Table, userId: int): (r: Table)
    ensures DrawnFrom(r, table)
    ensures forall id :: id in r ==> r[id].userId == userId
    ensures forall id :: id in table && table[id].userId == userId ==> id in r
  {
    map id | id in table && table[id].userId == userId :: table[id]
  }

  /** findByCompanyId. */
  function FindByCompanyId(table: Table, companyId: int): (r: Table)
    ensures DrawnFrom(r, table)
    ensures forall id :: id in r ==> r[id].companyId == companyId
    ensures forall id :: id in table && table[id].companyId == companyId ==> id in r
  {
    map id | id in table && table[id].companyId == companyId :: table[id]
  }

  /** findByUserIdAndCompanyId. */
  function FindByUserIdAndCompanyId(table: Table, userId: int, companyId: int): (r: Table)
    ensures DrawnFrom(r, table)
    ensures forall id :: id in r ==> r[id].userId == userId && r[id].companyId == companyId
    ensures forall id :: id in table && table[id].userId == userId && table[id].companyId == companyId ==> id in r
  {
    map id | id in table && table[id].userId == userId && table[id].companyId == companyId :: table[id]
  }

  /** findShiftsBetween: the shifts wholly inside [from, to]. */
  function FindShiftsBetween(table: Table, from: int, to: int): (r: Table)
    ensures DrawnFrom(r, table)
    ensures forall id :: id in r ==> Within(r[id], from, to)
    ensures forall id :: id in table && Within(table[id], from, to) ==> id in r
  {
    map id | id in table && Within(table[id], from, to) :: table[id]
  }

  /** findUserShiftsBetween: one user's shifts wholly inside [from, to]. */
  function FindUserShiftsBetween(table: Table, userId: int, from: int, to: int): (r: Table)
    ensures DrawnFrom(r, table)
    ensures forall id :: id in r ==> r[id].userId == userId && Within(r[id], from, to)
    ensures forall id :: id in table && table[id].userId == userId && Within(table[id], from, to) ==> id in r
  {
    map id | id in table && table[id].userId == userId && Within(table[id], from, to) :: table[id]
  }

  /** findByPublishedTrue. */
  function FindByPublishedTrue(table: Table): (r: Table)
    ensures DrawnFrom(r, table)
    ensures forall id :: id in r ==> r[id].published
    ensures forall id :: id in table && table[id].published ==> id in r
  {
    map id | id in table && table[id].published :: table[id]
  }

  /**
   * The range query tests containment, not overlap: a shift that overlaps
   * [from, to] but starts before `from` or stops after `to` is not returned.
   */
  lemma PartialOverlapExcluded(table: Table, from: int, to: int, id: int)
    requires id in table
    requires table[id].startTime < to && from < table[id].stopTime
    requires table[id].startTime < from || to < table[id].stopTime
    ensures id !in FindShiftsBetween(table, from, to)
  {
  }

  /** Widening the window never loses a shift. */
  lemma WiderWindowKeepsShifts(table: Table, from: int, to: int, from': int, to': int)
    requires from' <= from && to <= to'
    ensures DrawnFrom(FindShiftsBetween(table, from, to), FindShiftsBetween(table, from', to'))
  {
  }

  /** When every stored shift ends after it starts, an empty or reversed window finds nothing. */
  lemma {:induction false} ReversedWindowIsEmpty(table: Table, from: int, to: int)
    requires forall id :: id in table ==> Consistent(table[id])
    requires to <= from
    ensures FindShiftsBetween(table, from, to) == map[]
  {
    forall id | id in table
      ensures !Within(table[id], from, to)
    {
      assert Consistent(table[id]);
    }
    assert FindShiftsBetween(table, from, to).Keys == {};
  }

  /** One user's shifts in a window are exactly the window's shifts restricted to that user. */
  lemma UserShiftsBetweenIsRestriction(table: Table, userId: int, from: int, to: int)
    ensures FindUserShiftsBetween(table, userId, from, to) == FindByUserId(FindShiftsBetween(table, from, to), userId)
  {
  }

  /** The user-and-company finder returns exactly the shifts both single finders return. */
  lemma UserAndCompanyIsIntersection(table: Table, userId: int, companyId: int)
    ensures FindByUserIdAndCompanyId(table, userId, companyId).Keys
         == FindByUserId(table, userId).Keys * FindByCompanyId(table, companyId).Keys
    ensures FindByUserIdAndCompanyId(table, userId, companyId) == FindByUserId(FindByCompanyId(table, companyId), userId)
  {
  }

  /** Over a consistent table, every published shift found carries a publication time. */
  lemma PublishedShiftsAreStamped(table: Table)
    requires forall id :: id in table ==> Consistent(table[id])
    ensures forall id :: id in FindByPublishedTrue(table) ==> FindByPublishedTrue(table)[id].publishedAt.Some?
  {
  }
}
