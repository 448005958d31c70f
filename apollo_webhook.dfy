/**
 * The provider's phone-enrichment callback (app/api/apollo-webhook/route.ts):
 * it requires a `jobId` query parameter, maps the payload's matches to
 * contacts and completes the job, acknowledging the call whether or not
 * the job is known.
 */
module ApolloWebhook {
  import opened Wrappers
  import opened Js
  import opened Apollo
  import Types
  import PhoneEnrichmentStore
  import ApolloEnrich

  /** The parsed callback body; only `matches` is read. */
  datatype Payload = Payload(matches: Option<seq<ProviderRecord>>)

  datatype Body = SuccessBody | ErrorBody(error: string)

  datatype Response = Response(status: nat, body: Body)

  /** The mapping of one match in the callback. */
  function MatchToWebhookContact(m: ProviderRecord): (c: Types.Contact)
    ensures c.name == FullName(m.firstName, m.lastName)
    ensures c.email.Some? <==> Truthy(m.email)
    ensures c.email.Some? ==> c.email == m.email
    ensures c.phone == FirstPhone(m.phoneNumbers)
    ensures c.title.Some? <==> Truthy(m.title)
    ensures c.title.Some? ==> c.title == m.title
    ensures c.linkedinUrl.Some? <==> Truthy(m.linkedinUrl)
    ensures c.linkedinUrl.Some? ==> c.linkedinUrl == m.linkedinUrl
    ensures Truthy(OrganizationField(m.organization)) ==> c.organizationName == OrganizationField(m.organization)
    ensures !Truthy(OrganizationField(m.organization)) && Truthy(m.organizationName) ==> c.organizationName == m.organizationName
    ensures !Truthy(OrganizationField(m.organization)) && !Truthy(m.organizationName) ==> c.organizationName.None?
  {
    Types.Contact(
      FullName(m.firstName, m.lastName),
      OrAbsent(m.email),
      FirstPhone(m.phoneNumbers),
      OrAbsent(m.title),
      OrAbsent(m.linkedinUrl),
      Or(OrganizationField(m.organization), OrAbsent(m.organizationName)))
  }

  /** `(data.matches || []).map(...)`: one contact per match, in order. */
  function WebhookContacts(p: Payload): (cs: seq<Types.Contact>)
    ensures p.matches.None? ==> cs == []
    ensures |cs| == |RecordsOf(p.matches)|
    ensures forall k :: 0 <= k < |cs| ==> cs[k] == MatchToWebhookContact(RecordsOf(p.matches)[k])
  {
    var ms := RecordsOf(p.matches);
    seq(|ms|, k requires 0 <= k < |ms| => MatchToWebhookContact(ms[k]))
  }

  /**
   * The callback's contact equals the one the enrichment endpoint builds
   * from the bulk-match mapping followed by its `|| undefined` transform.
   */
  lemma WebhookAgreesWithBulkMatch(m: ProviderRecord)
    ensures MatchToWebhookContact(m) == ApolloEnrich.ToContact(MatchToContact(m))
  {
  }

  /**
   * `POST`: a missing or empty `jobId` is a 400 and leaves the store alone;
   * a body that does not parse is a 500; otherwise the job is completed with
   * the mapped contacts (nothing happens to an unknown id) and the call is
   * acknowledged.
   */
  method HandleWebhook(jobId: Option<string>, body: Call<Payload>, store: PhoneEnrichmentStore.Store, now: int)
    returns (resp: Response)
    requires store.Valid()
    modifies store
    ensures store.Valid()
    ensures store.cleanupInterval == old(store.cleanupInterval)
    ensures !Truthy(jobId) ==>
      resp == Response(400, ErrorBody("Missing jobId parameter")) && store.jobs == old(store.jobs)
    ensures Truthy(jobId) && body.Threw? ==>
      resp == Response(500, ErrorBody(MessageOr(body.thrown, "Webhook failed"))) && store.jobs == old(store.jobs)
    ensures Truthy(jobId) && body.Returned? ==> resp == Response(200, SuccessBody)
    ensures Truthy(jobId) && body.Returned? && jobId.value !in old(store.jobs.entries) ==>
      store.jobs == old(store.jobs)
    ensures Truthy(jobId) && body.Returned? && jobId.value in old(store.jobs.entries) ==>
      store.jobs == old(store.jobs).Set(jobId.value,
        PhoneEnrichmentStore.CompletedJob(old(store.jobs.entries[jobId.value]), WebhookContacts(body.value), now))
  {
    if !Truthy(jobId) {
      return Response(400, ErrorBody("Missing jobId parameter"));
    }
    if body.Threw? {
      return Response(500, ErrorBody(MessageOr(body.thrown, "Webhook failed")));
    }
    var contacts := WebhookContacts(body.value);
    store.UpdateJob(jobId.value, contacts, now);
    resp := Response(200, SuccessBody);
  }
}
