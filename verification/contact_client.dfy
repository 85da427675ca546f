/**
 * The contact client: recent contacts, and contact creation guarded by a
 * search for a contact with the same name (and company, when one is given).
 */
module ContactClient {
  import opened Wrappers
  import opened Json
  import Formatters
  import Ingest
  import ErrorHandler

  // ----------------------------------------------------------------- recent

  /** The search for recent contacts: newest modification first, a fixed property list. */
  datatype ContactSearch = ContactSearch(sortProperty: string, direction: string, limit: int, properties: seq<string>)

  const ContactProperties: seq<string> :=
    ["firstname", "lastname", "email", "phone", "company", "hs_lastmodifieddate", "lastmodifieddate"]

  function CreateContactSearchRequest(limit: int): (r: ContactSearch)
    ensures r.limit == limit && r.sortProperty == "lastmodifieddate" && r.direction == "DESCENDING"
    ensures r.properties == ContactProperties
  {
    ContactSearch("lastmodifieddate", "DESCENDING", limit, ContactProperties)
  }

  /**
   * `get_recent`: the contacts as dicts, datetimes converted, as one JSON
   * text; a failed search becomes the error text. `search` stands for the
   * search endpoint.
   */
  function GetRecent(limit: int, search: ContactSearch -> Result<seq<Value>, string>, dumps: Ingest.Dumps): (r: Value)
    ensures r.Str?
    ensures search(CreateContactSearchRequest(limit)).Success? ==>
      exists v :: Formatters.ConvertedList(v, search(CreateContactSearchRequest(limit)).value) && r == Str(dumps(v))
    ensures search(CreateContactSearchRequest(limit)).Failure? ==>
      r == ErrorHandler.ErrorText(search(CreateContactSearchRequest(limit)).error, dumps)
  {
    match search(CreateContactSearchRequest(limit))
    case Failure(e) => ErrorHandler.ErrorText(e, dumps)
    case Success(contacts) =>
      Formatters.ConvertList(contacts);
      Str(dumps(Formatters.ConvertDatetimeFields(Arr(contacts))))
  }

  // ------------------------------------------------------- duplicate search

  /** One search condition: `propertyName operator value`. */
  datatype Condition = Condition(propertyName: string, operator: string, value: Value)

  /** A filter group: its conditions must all hold. */
  type FilterGroup = seq<Condition>

  /**
   * The filter group of `_find_existing_contact`: first and last name equal,
   * and the company equal too when the company is truthy.
   */
  function DuplicateFilterGroup(firstname: Value, lastname: Value, company: Value): (g: FilterGroup)
    ensures |g| == (if Truthy(company) then 3 else 2)
    ensures forall i :: 0 <= i < |g| ==> g[i].operator == "EQ"
    ensures g[0] == Condition("firstname", "EQ", firstname) && g[1] == Condition("lastname", "EQ", lastname)
    ensures Truthy(company) ==> g[2] == Condition("company", "EQ", company)
  {
    var names := [Condition("firstname", "EQ", firstname), Condition("lastname", "EQ", lastname)];
    if Truthy(company) then names + [Condition("company", "EQ", company)] else names
  }

  /** The properties of a contact record as the API returns it. */
  function PropertiesOf(contact: Value): Value {
    GetOrNull(contact, "properties")
  }

  /** A contact satisfies an equality condition when its property holds exactly that value. */
  predicate Satisfies(contact: Value, c: Condition) {
    c.operator == "EQ" && Get(PropertiesOf(contact), c.propertyName) == Some(c.value)
  }

  /** A contact matches a group when it satisfies every condition of it. */
  predicate MatchesGroup(contact: Value, g: FilterGroup) {
    forall i :: 0 <= i < |g| ==> Satisfies(contact, g[i])
  }

  /** The duplicate the search is meant to find, stated directly. */
  predicate SameContact(contact: Value, firstname: Value, lastname: Value, company: Value) {
    var props := PropertiesOf(contact);
    Get(props, "firstname") == Some(firstname)
    && Get(props, "lastname") == Some(lastname)
    && (Truthy(company) ==> Get(props, "company") == Some(company))
  }

  /** Matching the filter group is being the same contact: names always, the company only when given. */
  lemma DuplicateFilterMeaning(contact: Value, firstname: Value, lastname: Value, company: Value)
    ensures MatchesGroup(contact, DuplicateFilterGroup(firstname, lastname, company))
      <==> SameContact(contact, firstname, lastname, company)
  {
    if SameContact(contact, firstname, lastname, company) {
      SameContactMatches(contact, firstname, lastname, company);
    }
    if MatchesGroup(contact, DuplicateFilterGroup(firstname, lastname, company)) {
      MatchingIsSameContact(contact, firstname, lastname, company);
    }
  }

  lemma SameContactMatches(contact: Value, firstname: Value, lastname: Value, company: Value)
    requires SameContact(contact, firstname, lastname, company)
    ensures MatchesGroup(contact, DuplicateFilterGroup(firstname, lastname, company))
  {
    var g := DuplicateFilterGroup(firstname, lastname, company);
    assert Satisfies(contact, g[0]) && Satisfies(contact, g[1]);
    if Truthy(company) {
      assert Satisfies(contact, g[2]);
    }
    forall i | 0 <= i < |g| ensures Satisfies(contact, g[i]) {
      assert i == 0 || i == 1 || i == 2;
    }
  }

  lemma MatchingIsSameContact(contact: Value, firstname: Value, lastname: Value, company: Value)
    requires MatchesGroup(contact, DuplicateFilterGroup(firstname, lastname, company))
    ensures SameContact(contact, firstname, lastname, company)
  {
    var g := DuplicateFilterGroup(firstname, lastname, company);
    assert Satisfies(contact, g[0]) && Satisfies(contact, g[1]);
    if Truthy(company) {
      assert Satisfies(contact, g[2]);
    }
  }

  /** What the search endpoint reports: the total count and the first page of contact records. */
  datatype ContactPage = ContactPage(total: int, results: seq<Value>)

  /** A search that returns only contacts matching every group it was given (the endpoint ORs the groups). */
  ghost predicate Honours(search: seq<FilterGroup> -> Result<ContactPage, string>) {
    forall groups, i :: search(groups).Success? && 0 <= i < |search(groups).value.results| ==>
      exists g :: g in groups && MatchesGroup(search(groups).value.results[i], g)
  }

  /** `str(e)` of the `IndexError` raised by `results[0]` on an empty list: the message alone, without the class name. */
  const IndexErrorMessage: string := "list index out of range"

  /**
   * `_find_existing_contact`: the first result when the reported total is
   * positive, `None` otherwise. A positive total with no results raises, as
   * indexing an empty list does; a failing search raises too.
   */
  function FindExistingContact(firstname: Value, lastname: Value, company: Value,
                               search: seq<FilterGroup> -> Result<ContactPage, string>): (r: Result<Option<Value>, string>)
    ensures var resp := search([DuplicateFilterGroup(firstname, lastname, company)]);
      && (resp.Failure? ==> r == Failure(resp.error))
      && (resp.Success? ==>
            && (r.Success? && r.value.None? <==> resp.value.total <= 0)
            && (r.Failure? <==> resp.value.total > 0 && |resp.value.results| == 0)
            && (r.Success? && r.value.Some? ==> r.value.value == resp.value.results[0]))
  {
    match search([DuplicateFilterGroup(firstname, lastname, company)])
    case Failure(e) => Failure(e)
    case Success(page) =>
      if page.total > 0 then
        if |page.results| == 0 then Failure(IndexErrorMessage) else Success(Some(page.results[0]))
      else Success(None)
  }

  /** Against a search that honours its filters, a contact found is a true duplicate. */
  lemma FoundIsDuplicate(firstname: Value, lastname: Value, company: Value,
                         search: seq<FilterGroup> -> Result<ContactPage, string>)
    requires Honours(search)
    ensures var r := FindExistingContact(firstname, lastname, company, search);
      r.Success? && r.value.Some? ==> SameContact(r.value.value, firstname, lastname, company)
  {
    var g := DuplicateFilterGroup(firstname, lastname, company);
    var r := FindExistingContact(firstname, lastname, company, search);
    if r.Success? && r.value.Some? {
      var page := search([g]).value;
      assert r.value.value == page.results[0];
      var g' :| g' in [g] && MatchesGroup(page.results[0], g');
      assert g' == g;
      DuplicateFilterMeaning(page.results[0], firstname, lastname, company);
    }
  }

  // --------------------------------------------------------------- creation

  /** The answer when a duplicate is found: the existing contact, flagged. */
  function AlreadyExists(contact: Value): (r: Value)
    ensures Get(r, "already_exists") == Some(Bool(true)) && Get(r, "contact") == Some(contact)
  {
    Obj([("already_exists", Bool(true)), ("contact", contact)])
  }

  /** Both names are given, so the duplicate check runs. */
  predicate ChecksDuplicate(properties: Fields) {
    "firstname" in Keys(properties) && "lastname" in Keys(properties)
  }

  /**
   * `create_contact` under its error decorator: with both names present it
   * first searches for a duplicate and, when a truthy one is found, returns
   * it flagged instead of creating; otherwise it creates the contact from the
   * given properties. `search` and `create` stand for the two endpoints; an
   * exception from either becomes the error text.
   */
  function CreateContact(properties: Fields, search: seq<FilterGroup> -> Result<ContactPage, string>,
                         create: Fields -> Result<Value, string>, dumps: Ingest.Dumps): (r: Value)
    ensures !ChecksDuplicate(properties) ==> r == ErrorHandler.Handled(create(properties), dumps)
    ensures ChecksDuplicate(properties) ==>
      var found := FindExistingContact(Get(Obj(properties), "firstname").value, Get(Obj(properties), "lastname").value,
                                       GetOrNull(Obj(properties), "company"), search);
      && (found.Failure? ==> r == ErrorHandler.ErrorText(found.error, dumps))
      && (found.Success? && found.value.Some? && Truthy(found.value.value) ==> r == AlreadyExists(found.value.value))
      && (found.Success? && !(found.value.Some? && Truthy(found.value.value)) ==>
            r == ErrorHandler.Handled(create(properties), dumps))
  {
    var p := Obj(properties);
    if ChecksDuplicate(properties) then
      match FindExistingContact(Get(p, "firstname").value, Get(p, "lastname").value, GetOrNull(p, "company"), search)
      case Failure(e) => ErrorHandler.ErrorText(e, dumps)
      case Success(existing) =>
        if existing.Some? && Truthy(existing.value) then AlreadyExists(existing.value)
        else ErrorHandler.Handled(create(properties), dumps)
    else ErrorHandler.Handled(create(properties), dumps)
  }
}
