/**
 * The provider client of lib/apollo.ts: query construction, the mapping of
 * raw provider records to contacts, and the error path for a non-OK
 * response. The HTTP exchange itself is an oracle: each operation receives
 * the reply the provider gave (or the value `fetch` threw).
 */
module Apollo {
  import opened Wrappers
  import opened Js

  datatype PhoneNumber = PhoneNumber(rawNumber: Option<string>, sanitizedNumber: Option<string>)

  datatype Organization = Organization(name: Option<string>)

  /**
   * A person (search) or match (bulk match, webhook) record as the provider
   * sends it; every property may be missing.
   */
  datatype ProviderRecord = ProviderRecord(
    id: string,
    firstName: Option<string>,
    lastName: Option<string>,
    name: Option<string>,
    email: Option<string>,
    title: Option<string>,
    linkedinUrl: Option<string>,
    organizationName: Option<string>,
    organization: Option<Organization>,
    phoneNumbers: Option<seq<PhoneNumber>>,
    hasEmail: Option<bool>,
    hasDirectPhone: Option<bool>)

  /** The client's own contact record; `None` stands for `null` (or a missing flag). */
  datatype ApolloContact = ApolloContact(
    id: string,
    firstName: string,
    lastName: string,
    name: string,
    email: Option<string>,
    phone: Option<string>,
    title: Option<string>,
    linkedinUrl: Option<string>,
    organizationName: Option<string>,
    hasEmail: Option<bool>,
    hasDirectPhone: Option<bool>)

  /** The `{id, first_name, last_name}` entries of a bulk-match `details` array. */
  datatype PersonRef = PersonRef(id: string, firstName: string, lastName: string)

  /** What `fetch` produced: it threw, or the provider answered with a status, its text and its parsed body. */
  datatype Reply<B> = NoReply(thrown: Thrown) | Reply(status: nat, text: string, body: B)

  /** `response.ok`. */
  predicate IsOk(status: nat) {
    200 <= status <= 299
  }

  const BaseUrl := "https://api.apollo.io/api/v1"

  /** The title filters of the people search, in the order they are appended. */
  const PersonTitles: seq<string> := ["CTO", "VP", "Chief", "Head of Engineering", "Director", "CEO"]

  /** The query parameters of `searchPeople`, built by appending one `person_titles[]` per title. */
  method SearchParams(domain: string) returns (params: seq<(string, string)>)
    ensures |params| == 3 + |PersonTitles|
    ensures params[..3] == [("q_organization_domains_list[]", domain), ("per_page", "10"),
                            ("contact_email_status[]", "verified")]
    ensures forall i :: 0 <= i < |PersonTitles| ==> params[3 + i] == ("person_titles[]", PersonTitles[i])
  {
    params := [("q_organization_domains_list[]", domain), ("per_page", "10"),
               ("contact_email_status[]", "verified")];
    var titles := PersonTitles;
    for t := 0 to |titles|
      invariant |params| == 3 + t
      invariant params[..3] == [("q_organization_domains_list[]", domain), ("per_page", "10"),
                                ("contact_email_status[]", "verified")]
      invariant forall i :: 0 <= i < t ==> params[3 + i] == ("person_titles[]", titles[i])
    {
      params := params + [("person_titles[]", titles[t])];
    }
  }

  /** The query parameters of `bulkEnrichPeople`: emails only. */
  const BulkEnrichParams: seq<(string, string)> := [("reveal_personal_emails", "true")]

  /** The query parameters of `bulkEnrichPhonesWithWebhook`. */
  function PhoneEnrichParams(webhookUrl: string): (params: seq<(string, string)>)
    ensures params == [("reveal_phone_number", "true"), ("webhook_url", webhookUrl)]
  {
    [("reveal_phone_number", "true"), ("webhook_url", webhookUrl)]
  }

  /** The `{id, first_name, last_name}` projection of contacts, in order. */
  function PeopleToEnrich(contacts: seq<ApolloContact>): (people: seq<PersonRef>)
    ensures |people| == |contacts|
    ensures forall i :: 0 <= i < |contacts| ==>
      people[i] == PersonRef(contacts[i].id, contacts[i].firstName, contacts[i].lastName)
  {
    seq(|contacts|, i requires 0 <= i < |contacts| =>
      PersonRef(contacts[i].id, contacts[i].firstName, contacts[i].lastName))
  }

  /** The `details` array of a bulk-match body: one entry per person, in order, with only the three fields. */
  function Details(people: seq<PersonRef>): (details: seq<PersonRef>)
    ensures details == people
  {
    seq(|people|, i requires 0 <= i < |people| =>
      PersonRef(people[i].id, people[i].firstName, people[i].lastName))
  }

  /** `` `${first || ""} ${last || ""}`.trim() ``. */
  function FullName(first: Option<string>, last: Option<string>): (name: string)
    ensures |name| <= |OrEmpty(first)| + 1 + |OrEmpty(last)|
    ensures name == [] || (!IsWhiteSpace(name[0]) && !IsWhiteSpace(name[|name| - 1]))
  {
    Trim(OrEmpty(first) + " " + OrEmpty(last))
  }

  predicate Tidy(s: string) {
    s != [] && !IsWhiteSpace(s[0]) && !IsWhiteSpace(s[|s| - 1])
  }

  /** The composed name when both parts are present. */
  lemma FullNameBoth(first: string, last: string)
    requires Tidy(first) && Tidy(last)
    ensures FullName(Some(first), Some(last)) == first + " " + last
  {
    var both := first + " " + last;
    assert both[0] == first[0] && both[|both| - 1] == last[|last| - 1];
    TrimIdentity(both);
  }

  /** The composed name when one part is missing or empty: no stray space remains. */
  lemma FullNameOnePart(part: string)
    requires Tidy(part)
    ensures FullName(Some(part), None) == part && FullName(Some(part), Some("")) == part
    ensures FullName(None, Some(part)) == part && FullName(Some(""), Some(part)) == part
  {
    assert OrEmpty(Some(part)) + " " + OrEmpty(None) == part + " ";
    assert OrEmpty(Some(part)) + " " + OrEmpty(Some("")) == part + " ";
    assert OrEmpty(None) + " " + OrEmpty(Some(part)) == " " + part;
    assert OrEmpty(Some("")) + " " + OrEmpty(Some(part)) == " " + part;
    TrimTrailingSpace(part);
    TrimLeadingSpace(part);
  }

  /** Two missing parts give the empty name. */
  lemma FullNameNone()
    ensures FullName(None, None) == ""
  {
    var both := OrEmpty(None) + " " + OrEmpty(None);
    assert both == " ";
    assert SkipWhiteSpace(both, 0) == 1;
    assert BackOverWhiteSpace(both, 1, 1) == 1;
  }

  /** `phone_numbers?.[0]?.raw_number || phone_numbers?.[0]?.sanitized_number || undefined`. */
  function FirstPhone(numbers: Option<seq<PhoneNumber>>): (r: Option<string>)
    ensures numbers.None? || numbers.value == [] ==> r.None?
    ensures numbers.Some? && numbers.value != [] ==>
      (Truthy(numbers.value[0].rawNumber) ==> r == numbers.value[0].rawNumber) &&
      (!Truthy(numbers.value[0].rawNumber) && Truthy(numbers.value[0].sanitizedNumber) ==>
         r == numbers.value[0].sanitizedNumber) &&
      (!Truthy(numbers.value[0].rawNumber) && !Truthy(numbers.value[0].sanitizedNumber) ==> r.None?)
    ensures r.Some? ==> r.value != ""
  {
    if numbers.Some? && numbers.value != [] then
      Or(numbers.value[0].rawNumber, OrAbsent(numbers.value[0].sanitizedNumber))
    else None
  }

  /** Only the first phone entry is ever consulted. */
  lemma FirstPhoneOnlyFirst(p: PhoneNumber, rest: seq<PhoneNumber>)
    ensures FirstPhone(Some([p] + rest)) == FirstPhone(Some([p]))
  {
  }

  /** `organization?.name`. */
  function OrganizationField(o: Option<Organization>): (r: Option<string>)
    ensures o.None? ==> r.None?
    ensures o.Some? ==> r == o.value.name
  {
    if o.Some? then o.value.name else None
  }

  /** The mapping of one search result (lib/apollo.ts, `searchPeople`). */
  function SearchPersonToContact(p: ProviderRecord): (c: ApolloContact)
    ensures c.id == p.id
    ensures c.firstName == OrEmpty(p.firstName) && c.lastName == OrEmpty(p.lastName)
    ensures Truthy(p.name) ==> c.name == p.name.value
    ensures !Truthy(p.name) ==> c.name == FullName(p.firstName, p.lastName)
    ensures c.email.None? && c.phone.None?
    ensures c.title == OrAbsent(p.title) && c.linkedinUrl == OrAbsent(p.linkedinUrl)
    ensures Truthy(p.organizationName) ==> c.organizationName == p.organizationName
    ensures !Truthy(p.organizationName) ==> c.organizationName == OrAbsent(OrganizationField(p.organization))
    ensures c.hasEmail == Some(p.hasEmail == Some(true))
    ensures c.hasDirectPhone == Some(p.hasDirectPhone == Some(true))
  {
    ApolloContact(
      p.id,
      OrEmpty(p.firstName),
      OrEmpty(p.lastName),
      if Truthy(p.name) then p.name.value else FullName(p.firstName, p.lastName),
      None,
      None,
      OrAbsent(p.title),
      OrAbsent(p.linkedinUrl),
      Or(p.organizationName, OrAbsent(OrganizationField(p.organization))),
      Some(OrFalse(p.hasEmail)),
      Some(OrFalse(p.hasDirectPhone)))
  }

  /** The mapping of one bulk-match result (lib/apollo.ts, `bulkEnrichPeople`). */
  function MatchToContact(m: ProviderRecord): (c: ApolloContact)
    ensures c.id == m.id
    ensures c.firstName == OrEmpty(m.firstName) && c.lastName == OrEmpty(m.lastName)
    ensures c.name == FullName(m.firstName, m.lastName)
    ensures c.email == OrAbsent(m.email)
    ensures c.phone == FirstPhone(m.phoneNumbers)
    ensures c.title == OrAbsent(m.title) && c.linkedinUrl == OrAbsent(m.linkedinUrl)
    ensures Truthy(OrganizationField(m.organization)) ==> c.organizationName == OrganizationField(m.organization)
    ensures !Truthy(OrganizationField(m.organization)) ==> c.organizationName == OrAbsent(m.organizationName)
    ensures c.hasEmail.None? && c.hasDirectPhone.None?
  {
    ApolloContact(
      m.id,
      OrEmpty(m.firstName),
      OrEmpty(m.lastName),
      FullName(m.firstName, m.lastName),
      OrAbsent(m.email),
      FirstPhone(m.phoneNumbers),
      OrAbsent(m.title),
      OrAbsent(m.linkedinUrl),
      Or(OrganizationField(m.organization), OrAbsent(m.organizationName)),
      None,
      None)
  }

  /** The two mappings disagree on the organization when both sources are set and differ. */
  lemma OrganizationPreferenceDiffers(p: ProviderRecord)
    requires Truthy(p.organizationName) && Truthy(OrganizationField(p.organization))
    requires p.organizationName != OrganizationField(p.organization)
    ensures SearchPersonToContact(p).organizationName == p.organizationName
    ensures MatchToContact(p).organizationName == OrganizationField(p.organization)
    ensures SearchPersonToContact(p).organizationName != MatchToContact(p).organizationName
  {
  }

  /** `data.people || []` and `data.matches || []`. */
  function RecordsOf(body: Option<seq<ProviderRecord>>): (r: seq<ProviderRecord>)
    ensures body.None? ==> r == []
    ensures body.Some? ==> r == body.value
  {
    body.GetOr([])
  }

  /** The error text of a non-OK answer: `${prefix}: ${status} - ${text}`. */
  function StatusError(prefix: string, status: nat, text: string): string {
    prefix + ": " + NatToString(status) + " - " + text
  }

  /** `searchPeople`, given the provider's reply to the search request. */
  function SearchPeople(reply: Reply<Option<seq<ProviderRecord>>>): (r: Call<seq<ApolloContact>>)
    ensures reply.NoReply? ==> r == Threw(reply.thrown)
    ensures reply.Reply? && !IsOk(reply.status) ==>
      r == Threw(ErrorObject(StatusError("Apollo API error", reply.status, reply.text)))
    ensures reply.Reply? && IsOk(reply.status) ==>
      r.Returned? && |r.value| == |RecordsOf(reply.body)| &&
      forall i :: 0 <= i < |r.value| ==> r.value[i] == SearchPersonToContact(RecordsOf(reply.body)[i])
  {
    match reply
    case NoReply(t) => Threw(t)
    case Reply(status, text, body) =>
      if !IsOk(status) then Threw(ErrorObject(StatusError("Apollo API error", status, text)))
      else
        var people := RecordsOf(body);
        Returned(seq(|people|, i requires 0 <= i < |people| => SearchPersonToContact(people[i])))
  }

  /** `bulkEnrichPeople`, given the provider's reply to the bulk-match request. */
  function BulkEnrichPeople(reply: Reply<Option<seq<ProviderRecord>>>): (r: Call<seq<ApolloContact>>)
    ensures reply.NoReply? ==> r == Threw(reply.thrown)
    ensures reply.Reply? && !IsOk(reply.status) ==>
      r == Threw(ErrorObject(StatusError("Apollo enrichment error", reply.status, reply.text)))
    ensures reply.Reply? && IsOk(reply.status) ==>
      r.Returned? && |r.value| == |RecordsOf(reply.body)| &&
      forall i :: 0 <= i < |r.value| ==> r.value[i] == MatchToContact(RecordsOf(reply.body)[i])
  {
    match reply
    case NoReply(t) => Threw(t)
    case Reply(status, text, body) =>
      if !IsOk(status) then Threw(ErrorObject(StatusError("Apollo enrichment error", status, text)))
      else
        var matches := RecordsOf(body);
        Returned(seq(|matches|, i requires 0 <= i < |matches| => MatchToContact(matches[i])))
  }

  /** `bulkEnrichPhonesWithWebhook`: an accepted request returns nothing; anything else throws. */
  function BulkEnrichPhonesWithWebhook(reply: Reply<()>): (r: Call<()>)
    ensures r.Returned? <==> reply.Reply? && IsOk(reply.status)
    ensures reply.NoReply? ==> r == Threw(reply.thrown)
    ensures reply.Reply? && !IsOk(reply.status) ==>
      r == Threw(ErrorObject(StatusError("Apollo phone enrichment error", reply.status, reply.text)))
  {
    match reply
    case NoReply(t) => Threw(t)
    case Reply(status, text, _) =>
      if !IsOk(status) then Threw(ErrorObject(StatusError("Apollo phone enrichment error", status, text)))
      else Returned(())
  }
}
