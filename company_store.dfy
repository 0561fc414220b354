/**
 * The company service: the companies table, unique by name, with its
 * create, update and delete operations. The monolith's CompanyService and
 * the shift-service's CompanyService run the same code on their own tables,
 * so one store models both. Every failing call leaves the table as it was,
 * the services being transactional.
 */
module Companies {
  import opened Wrappers

  /** A stored company row. */
  datatype Company = Company(
    id: int,
    name: string,
    legalName: Option<string>,
    description: Option<string>,
    website: Option<string>,
    phoneNumber: Option<string>,
    address: Option<string>,
    createdAt: int,
    updatedAt: int)

  /** A create body; bean validation makes the name present. */
  datatype CompanyDraft = CompanyDraft(
    name: string,
    legalName: Option<string>,
    description: Option<string>,
    website: Option<string>,
    phoneNumber: Option<string>,
    address: Option<string>)

  /** An update body as the service reads it; None is null. */
  datatype CompanyPatch = CompanyPatch(
    name: Option<string>,
    legalName: Option<string>,
    description: Option<string>,
    website: Option<string>,
    phoneNumber: Option<string>,
    address: Option<string>)

  /** existsByName: some stored company has this name. */
  predicate NameExists(companies: map<int, Company>, name: string) {
    exists id :: id in companies && companies[id].name == name
  }

  /** No two stored companies share a name. */
  ghost predicate NamesDistinct(companies: map<int, Company>) {
    forall i, j :: i in companies && j in companies && companies[i].name == companies[j].name ==> i == j
  }

  /** Whether `patch` renames `c`: it gives a name, and not the company's current one. */
  predicate Renames(c: Company, patch: CompanyPatch) {
    patch.name.Some? && patch.name.value != c.name
  }

  /**
   * The row updateCompany saves when the rename check passes: each property
   * the patch gives replaces the stored one, and the update hook stamps the
   * update time.
   */
  function Merged(c: Company, patch: CompanyPatch, now: int): (m: Company)
    ensures m.id == c.id && m.createdAt == c.createdAt && m.updatedAt == now
    ensures m.name != c.name ==> Renames(c, patch) && m.name == patch.name.value
    ensures patch == CompanyPatch(None, None, None, None, None, None) ==> m == c.(updatedAt := now)
  {
    c.(name := patch.name.GetOr(c.name),
       legalName := patch.legalName.OrElse(c.legalName),
       description := patch.description.OrElse(c.description),
       website := patch.website.OrElse(c.website),
       phoneNumber := patch.phoneNumber.OrElse(c.phoneNumber),
       address := patch.address.OrElse(c.address),
       updatedAt := now)
  }

  /** Sending the same update again, later, changes only the update time. */
  lemma MergedTwiceOnlyRestamps(c: Company, patch: CompanyPatch, now: int, later: int)
    ensures Merged(Merged(c, patch, now), patch, later) == Merged(c, patch, now).(updatedAt := later)
  {
  }

  /** Adding a company under an unused id and an unused name keeps names distinct. */
  lemma InsertKeepsNamesDistinct(companies: map<int, Company>, id: int, c: Company)
    requires NamesDistinct(companies) && id !in companies && !NameExists(companies, c.name)
    ensures NamesDistinct(companies[id := c])
  {
  }

  /**
   * Replacing a company by a row that keeps its name, or takes a name no
   * company has, keeps names distinct.
   */
  lemma ReplaceKeepsNamesDistinct(companies: map<int, Company>, id: int, c: Company)
    requires NamesDistinct(companies) && id in companies
    requires c.name == companies[id].name || !NameExists(companies, c.name)
    ensures NamesDistinct(companies[id := c])
  {
  }

  class CompanyStore {
    var companies: map<int, Company>
    var nextId: int

    /** Every row is filed under its own identifier, below the counter, and names are unique. */
    ghost predicate Valid()
      reads this
    {
      && (forall id :: id in companies ==> companies[id].id == id && id < nextId)
      && NamesDistinct(companies)
    }

    /** An empty table; identifiers are generated from 1. */
    constructor ()
      ensures Valid() && companies == map[] && nextId == 1
    {
      companies := map[];
      nextId := 1;
    }

    /** createCompany: fails on a name already used; otherwise adds one row under a fresh id. */
    method Create(draft: CompanyDraft, now: int) returns (r: Result<Company>)
      requires Valid()
      modifies this
      ensures Valid()
      ensures old(NameExists(companies, draft.name)) ==>
              r == Err(CompanyNameTaken(draft.name)) && companies == old(companies) && nextId == old(nextId)
      ensures !old(NameExists(companies, draft.name)) ==>
              && r == Ok(Company(old(nextId), draft.name, draft.legalName, draft.description, draft.website,
                                 draft.phoneNumber, draft.address, now, now))
              && old(nextId) !in old(companies)
              && companies == old(companies)[old(nextId) := r.value]
              && nextId == old(nextId) + 1
    {
      if NameExists(companies, draft.name) {
        return Err(CompanyNameTaken(draft.name));
      }
      var company := Company(nextId, draft.name, draft.legalName, draft.description, draft.website,
                             draft.phoneNumber, draft.address, now, now);
      InsertKeepsNamesDistinct(companies, nextId, company);
      companies := companies[nextId := company];
      nextId := nextId + 1;
      r := Ok(company);
    }

    /**
     * updateCompany: a new name is checked against the other companies (the
     * company's own current name is no conflict); each other property is
     * overwritten only when given.
     */
    method Update(id: int, patch: CompanyPatch, now: int) returns (r: Result<Company>)
      requires Valid()
      modifies this
      ensures Valid() && nextId == old(nextId)
      ensures r.Err? ==> companies == old(companies)
      ensures id !in old(companies) ==> r == Err(CompanyNotFound(id))
      ensures id in old(companies) ==>
              var c := old(companies)[id];
              && (Renames(c, patch) && old(NameExists(companies, patch.name.value)) ==>
                    r == Err(CompanyNameTaken(patch.name.value)))
              && (!(Renames(c, patch) && old(NameExists(companies, patch.name.value))) ==>
                    r == Ok(Merged(c, patch, now)) && companies == old(companies)[id := r.value])
    {
      if id !in companies {
        return Err(CompanyNotFound(id));
      }
      var company := companies[id];
      if patch.name.Some? && patch.name.value != company.name {
        if NameExists(companies, patch.name.value) {
          return Err(CompanyNameTaken(patch.name.value));
        }
        company := company.(name := patch.name.value);
      }
      company := company.(legalName := patch.legalName.OrElse(company.legalName));
      company := company.(description := patch.description.OrElse(company.description));
      company := company.(website := patch.website.OrElse(company.website));
      company := company.(phoneNumber := patch.phoneNumber.OrElse(company.phoneNumber));
      company := company.(address := patch.address.OrElse(company.address));
      company := company.(updatedAt := now);
      ReplaceKeepsNamesDistinct(companies, id, company);
      companies := companies[id := company];
      r := Ok(company);
    }

    /** deleteCompany: removes exactly the row `id`, or fails when there is none. */
    method Delete(id: int) returns (r: Result<()>)
      requires Valid()
      modifies this
      ensures Valid() && nextId == old(nextId)
      ensures id !in old(companies) ==> r == Err(CompanyNotFound(id)) && companies == old(companies)
      ensures id in old(companies) ==> r == Ok(()) && companies == old(companies) - {id}
    {
      if id !in companies {
        return Err(CompanyNotFound(id));
      }
      companies := companies - {id};
      r := Ok(());
    }

    /** getCompanyById: the row filed under `id`, which carries that id. */
    function Get(id: int): (r: Option<Company>)
      reads this
      requires Valid()
      ensures r.Some? <==> id in companies
      ensures r.Some? ==> r.value == companies[id] && r.value.id == id
    {
      if id in companies then Some(companies[id]) else None
    }

    /** getCompanyByName: the one company with this name, if any. */
    function GetByName(name: string): (r: Option<Company>)
      reads this
      requires Valid()
      ensures r.Some? <==> NameExists(companies, name)
      ensures r.Some? ==> r.value.id in companies && companies[r.value.id] == r.value && r.value.name == name
    {
      if NameExists(companies, name) then
        var id :| id in companies && companies[id].name == name;
        Some(companies[id])
      else
        None
    }
  }
}
