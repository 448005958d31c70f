/**
 * The contact-enrichment endpoint (app/api/apollo-enrich/route.ts): for the
 * first `min(companies.length, limit)` companies, in order, it extracts the
 * domain, searches the provider, enriches the contacts in batches of ten,
 * falls back to the search contacts when enrichment fails, normalises the
 * contacts and, when asked, registers a phone-enrichment job before sending
 * the asynchronous phone request.
 *
 * Everything outside the process is an oracle in `Env`: the URL parser's
 * hostname, the provider's replies (indexed by company and batch), the
 * UUID generator, the clock and the environment variables. The awaited
 * delays and the provider requests are recorded in a ghost trace of events.
 */
module ApolloEnrich {
  import opened Wrappers
  import opened Js
  import opened Apollo
  import Types
  import JsMap
  import PhoneEnrichmentStore

  datatype Env = Env(
    apiKey: Option<string>,
    baseUrl: Option<string>,
    /** `new URL(url).hostname`, or `None` when the constructor throws. */
    hostname: string -> Option<string>,
    /** The reply to the people search of company `i` for a domain. */
    search: (nat, string) -> Reply<Option<seq<ProviderRecord>>>,
    /** The reply to the bulk match of batch `b` of company `i`. */
    bulkMatch: (nat, nat, seq<PersonRef>) -> Reply<Option<seq<ProviderRecord>>>,
    /** The reply to the phone request of company `i`. */
    phoneMatch: (nat, seq<PersonRef>, string) -> Reply<()>,
    /** `randomUUID()` as called for company `i`. */
    uuid: nat -> string,
    /** `Date.now()` when the job of company `i` is created. */
    clock: nat -> int,
    /** The validation library's error message for a rejected body. */
    validationMessage: Types.Json -> string)

  /** What the handler waits for or sends, in order. */
  datatype Event =
    | Search(domain: string)
    | BulkMatch(people: seq<PersonRef>)
    | JobCreated(jobId: string)
    | PhoneRequest(people: seq<PersonRef>, webhookUrl: string)
    | Delay(ms: nat)

  /** One entry of `results`. */
  datatype CompanyResult = CompanyResult(
    company: string,
    url: string,
    contacts: seq<Types.Contact>,
    phoneJobId: Option<string>,
    error: Option<string>)

  datatype Body = ResultsBody(results: seq<CompanyResult>) | ErrorBody(error: string)

  datatype Response = Response(status: nat, body: Body)

  const BatchSize: nat := 10
  const DelayMs: nat := 500
  const InvalidDomain := "Invalid URL - could not extract domain"
  const DefaultBaseUrl := "http://localhost:3000"

  // ---------------------------------------------------------------------
  // extractDomain

  /** `extractDomain`: the hostname with its first "www." removed, or "" when the URL does not parse. */
  function ExtractDomain(hostname: Option<string>): (d: string)
    ensures hostname.None? ==> d == ""
    ensures hostname.Some? && IndexOfFrom(hostname.value, "www.", 0).None? ==> d == hostname.value
    ensures hostname.Some? && IndexOfFrom(hostname.value, "www.", 0).Some? ==>
      var k := IndexOfFrom(hostname.value, "www.", 0).value;
      |d| == |hostname.value| - 4 && d == hostname.value[..k] + hostname.value[k + 4..]
  {
    if hostname.None? then "" else ReplaceFirst(hostname.value, "www.", "")
  }

  /** A leading "www." goes. */
  lemma ExtractDomainLeading()
    ensures ExtractDomain(Some("www.acme.io")) == "acme.io"
  {
    var h := "www.acme.io";
    assert h[0..4] == "www.";
    assert IndexOfFrom(h, "www.", 0) == Some(0);
  }

  /** A "www." further in goes too: the pattern is matched anywhere, not only as a prefix. */
  lemma ExtractDomainInner()
    ensures ExtractDomain(Some("app.www.acme.io")) == "app.acme.io"
  {
    var h := "app.www.acme.io";
    assert h[4..8] == "www.";
    assert h[0..4] != "www." by { assert h[0..4][0] == 'a'; }
    assert h[1..5] != "www." by { assert h[1..5][0] == 'p'; }
    assert h[2..6] != "www." by { assert h[2..6][0] == 'p'; }
    assert h[3..7] != "www." by { assert h[3..7][0] == '.'; }
    assert IndexOfFrom(h, "www.", 3) == Some(4);
    assert IndexOfFrom(h, "www.", 0) == Some(4);
    assert h[..4] + h[8..] == "app.acme.io";
  }

  /** Only the first of two occurrences goes. */
  lemma ExtractDomainOnlyFirst()
    ensures ExtractDomain(Some("www.www.io")) == "www.io"
  {
    var h := "www.www.io";
    assert h[0..4] == "www.";
    assert IndexOfFrom(h, "www.", 0) == Some(0);
    assert h[4..] == "www.io";
  }

  // ---------------------------------------------------------------------
  // Batching

  /** The slices `contacts.slice(j, j + 10)` for `j = 0, 10, 20, ...`. */
  function Batches<T>(s: seq<T>): (r: seq<seq<T>>)
    decreases |s|
  {
    if s == [] then []
    else if |s| <= BatchSize then [s]
    else [s[..BatchSize]] + Batches(s[BatchSize..])
  }

  function Flatten<T>(parts: seq<seq<T>>): seq<T> {
    if parts == [] then [] else parts[0] + Flatten(parts[1..])
  }

  /** Flattening a list of parts that starts with `head`. */
  lemma FlattenCons<T>(parts: seq<seq<T>>, head: seq<T>, rest: seq<seq<T>>)
    requires parts == [head] + rest
    ensures Flatten(parts) == head + Flatten(rest)
  {
    assert parts[0] == head && parts[1..] == rest;
  }

  /** `ceil(n / 10)` batches. */
  lemma {:induction false} BatchesCount<T>(s: seq<T>)
    ensures |Batches(s)| == (|s| + BatchSize - 1) / BatchSize
    decreases |s|
  {
    if |s| > BatchSize {
      BatchesCount(s[BatchSize..]);
    }
  }

  lemma SliceOfSuffix<T>(s: seq<T>, d: nat, lo: nat, hi: nat)
    requires d <= |s| && lo <= hi <= |s| - d
    ensures s[d..][lo..hi] == s[lo + d .. hi + d]
  {
    var u, v := s[d..][lo..hi], s[lo + d .. hi + d];
    assert |u| == |v|;
    forall j | 0 <= j < |u| ensures u[j] == v[j] {
      assert u[j] == s[lo + d + j];
    }
  }

  /** Batch `b` is the slice from `10b` to `min(10b + 10, n)`: consecutive and at most ten long. */
  lemma {:induction false} BatchesAreSlices<T>(s: seq<T>, b: nat)
    requires b < |Batches(s)|
    ensures BatchSize * b < |s|
    ensures Batches(s)[b] == s[BatchSize * b .. if BatchSize * b + BatchSize < |s| then BatchSize * b + BatchSize else |s|]
    ensures 1 <= |Batches(s)[b]| <= BatchSize
    decreases |s|
  {
    if b > 0 {
      assert |s| > BatchSize;
      var rest := s[BatchSize..];
      BatchesAreSlices(rest, b - 1);
      var lo := BatchSize * (b - 1);
      var hi := if lo + BatchSize < |rest| then lo + BatchSize else |rest|;
      SliceOfSuffix(s, BatchSize, lo, hi);
    } else {
      assert s[..|s|] == s;
    }
  }

  /** Concatenating the batches gives back the contacts, in order. */
  lemma {:induction false} BatchesFlatten<T>(s: seq<T>)
    ensures Flatten(Batches(s)) == s
    decreases |s|
  {
    if s == [] {
    } else if |s| <= BatchSize {
      assert Flatten([s]) == s + Flatten([s][1..]);
    } else {
      BatchesFlatten(s[BatchSize..]);
      var r := Batches(s);
      assert r[0] == s[..BatchSize] && r[1..] == Batches(s[BatchSize..]);
      assert s[..BatchSize] + s[BatchSize..] == s;
    }
  }

  /** The batching loop of the handler. */
  method MakeBatches<T>(s: seq<T>) returns (batches: seq<seq<T>>)
    ensures batches == Batches(s)
  {
    batches := [];
    var j := 0;
    while j < |s|
      invariant 0 <= j <= |s|
      invariant batches + Batches(s[j..]) == Batches(s)
      decreases |s| - j
    {
      var hi := if j + BatchSize < |s| then j + BatchSize else |s|;
      var rest := s[j..];
      assert Batches(rest) == [s[j..hi]] + Batches(s[hi..]) by {
        if |rest| > BatchSize {
          assert rest[..BatchSize] == s[j..hi] && rest[BatchSize..] == s[hi..];
        } else {
          assert rest == s[j..hi] && s[hi..] == [];
        }
      }
      batches := batches + [s[j..hi]];
      j := hi;
    }
    assert s[j..] == [];
  }

  // ---------------------------------------------------------------------
  // The enrichment of the batches of one company

  /** `prefix` in front of a returned value; a throw stays a throw. */
  function Prepend(prefix: seq<ApolloContact>, c: Call<seq<ApolloContact>>): Call<seq<ApolloContact>> {
    match c
    case Returned(v) => Returned(prefix + v)
    case Threw(t) => Threw(t)
  }

  lemma PrependAssoc(a: seq<ApolloContact>, v: seq<ApolloContact>, c: Call<seq<ApolloContact>>)
    ensures Prepend(a, Prepend(v, c)) == Prepend(a + v, c)
    ensures Prepend([], c) == c
  {
    match c
    case Returned(w) =>
      assert a + (v + w) == (a + v) + w;
      assert [] + w == w;
    case Threw(_) =>
  }

  /** The bulk-match call made for batch `b` of company `i`. */
  function BatchCall(env: Env, i: nat, batches: seq<seq<ApolloContact>>, b: nat): Call<seq<ApolloContact>>
    requires b < |batches|
  {
    BulkEnrichPeople(env.bulkMatch(i, b, PeopleToEnrich(batches[b])))
  }

  /** The outcome of enriching the batches from `b` on: their outputs concatenated, or the first throw. */
  function EnrichFrom(env: Env, i: nat, batches: seq<seq<ApolloContact>>, b: nat): Call<seq<ApolloContact>>
    requires b <= |batches|
    decreases |batches| - b
  {
    if b == |batches| then Returned([])
    else
      match BatchCall(env, i, batches, b)
      case Threw(t) => Threw(t)
      case Returned(v) => Prepend(v, EnrichFrom(env, i, batches, b + 1))
  }

  /** The events of the batch loop from batch `b` on: each call, and a delay between two batches. */
  function BatchEvents(env: Env, i: nat, batches: seq<seq<ApolloContact>>, b: nat): seq<Event>
    requires b <= |batches|
    decreases |batches| - b
  {
    if b == |batches| then []
    else
      [BulkMatch(PeopleToEnrich(batches[b]))] +
      match BatchCall(env, i, batches, b)
      case Threw(_) => []
      case Returned(_) => (if b < |batches| - 1 then [Delay(DelayMs)] else []) + BatchEvents(env, i, batches, b + 1)
  }

  /** One batch of the loop: its call, then either the throw or the rest of the batches. */
  lemma EnrichFromStep(env: Env, i: nat, batches: seq<seq<ApolloContact>>, b: nat)
    requires b < |batches|
    ensures BatchCall(env, i, batches, b).Threw? ==>
      EnrichFrom(env, i, batches, b) == BatchCall(env, i, batches, b) &&
      BatchEvents(env, i, batches, b) == [BulkMatch(PeopleToEnrich(batches[b]))]
    ensures BatchCall(env, i, batches, b).Returned? ==>
      EnrichFrom(env, i, batches, b) ==
        Prepend(BatchCall(env, i, batches, b).value, EnrichFrom(env, i, batches, b + 1)) &&
      BatchEvents(env, i, batches, b) ==
        [BulkMatch(PeopleToEnrich(batches[b]))] + (if b < |batches| - 1 then [Delay(DelayMs)] else []) +
        BatchEvents(env, i, batches, b + 1)
  {
  }

  /** A log that ends in `head + pause + rest` is the log up to `pause`, then `rest`. */
  lemma AppendStep<T>(done: seq<T>, head: seq<T>, pause: seq<T>, rest: seq<T>, whole: seq<T>, total: seq<T>)
    requires total == done + whole && whole == head + pause + rest
    ensures total == (done + head + pause) + rest
  {
  }

  /**
   * One turn of the batch loop: the call for batch `b`, its output appended
   * to `all`, and the delay before the next batch. `stop` holds the throw
   * that leaves the loop.
   */
  method BatchTurn(env: Env, i: nat, batches: seq<seq<ApolloContact>>, b: nat,
                   all: seq<ApolloContact>, ghost events: seq<Event>)
    returns (stop: Option<Call<seq<ApolloContact>>>, all': seq<ApolloContact>, ghost events': seq<Event>)
    requires b < |batches|
    requires EnrichFrom(env, i, batches, 0) == Prepend(all, EnrichFrom(env, i, batches, b))
    requires BatchEvents(env, i, batches, 0) == events + BatchEvents(env, i, batches, b)
    ensures stop.Some? ==> stop.value == EnrichFrom(env, i, batches, 0) && events' == BatchEvents(env, i, batches, 0)
    ensures stop.None? ==>
      EnrichFrom(env, i, batches, 0) == Prepend(all', EnrichFrom(env, i, batches, b + 1)) &&
      BatchEvents(env, i, batches, 0) == events' + BatchEvents(env, i, batches, b + 1)
  {
    var people := PeopleToEnrich(batches[b]);
    var enriched := BulkEnrichPeople(env.bulkMatch(i, b, people));
    assert enriched == BatchCall(env, i, batches, b);
    EnrichFromStep(env, i, batches, b);
    ghost var whole := BatchEvents(env, i, batches, b);
    ghost var rest := BatchEvents(env, i, batches, b + 1);
    events' := events + [BulkMatch(people)];
    if enriched.Threw? {
      return Some(enriched), all, events';
    }
    ghost var tail := EnrichFrom(env, i, batches, b + 1);
    PrependAssoc(all, enriched.value, tail);
    all' := all + enriched.value;
    stop := None;
    ghost var pause: seq<Event> := if b < |batches| - 1 then [Delay(DelayMs)] else [];
    AppendStep(events, [BulkMatch(people)], pause, rest, whole, BatchEvents(env, i, batches, 0));
    if b < |batches| - 1 {
      events' := events' + [Delay(DelayMs)];
    } else {
      assert events' + pause == events';
    }
  }

  /** The batch loop inside the enrichment `try`: stops at the first batch whose call throws. */
  method EnrichBatches(env: Env, i: nat, batches: seq<seq<ApolloContact>>)
    returns (r: Call<seq<ApolloContact>>, ghost events: seq<Event>)
    ensures r == EnrichFrom(env, i, batches, 0)
    ensures events == BatchEvents(env, i, batches, 0)
  {
    var all: seq<ApolloContact> := [];
    events := [];
    PrependAssoc([], [], EnrichFrom(env, i, batches, 0));
    for b := 0 to |batches|
      invariant EnrichFrom(env, i, batches, 0) == Prepend(all, EnrichFrom(env, i, batches, b))
      invariant BatchEvents(env, i, batches, 0) == events + BatchEvents(env, i, batches, b)
    {
      var stop;
      stop, all, events := BatchTurn(env, i, batches, b, all, events);
      if stop.Some? {
        return stop.value, events;
      }
    }
    assert all + [] == all;
    r := Returned(all);
  }

  /** The number of bulk-match calls and of delays in a trace. */
  function Calls(events: seq<Event>): nat {
    if events == [] then 0 else (if events[0].BulkMatch? then 1 else 0) + Calls(events[1..])
  }

  function Delays(events: seq<Event>): nat {
    if events == [] then 0 else (if events[0].Delay? then 1 else 0) + Delays(events[1..])
  }

  lemma {:induction false} CountsAppend(a: seq<Event>, b: seq<Event>)
    ensures Calls(a + b) == Calls(a) + Calls(b)
    ensures Delays(a + b) == Delays(a) + Delays(b)
  {
    if a == [] {
      assert a + b == b;
    } else {
      CountsAppend(a[1..], b);
      assert (a + b)[1..] == a[1..] + b;
    }
  }

  /** Enrichment succeeds exactly when every batch call returns. */
  lemma {:induction false} EnrichSucceedsIffAllBatches(env: Env, i: nat, batches: seq<seq<ApolloContact>>, b: nat)
    requires b <= |batches|
    ensures EnrichFrom(env, i, batches, b).Returned? <==>
      forall k :: b <= k < |batches| ==> BatchCall(env, i, batches, k).Returned?
    decreases |batches| - b
  {
    if b < |batches| {
      EnrichSucceedsIffAllBatches(env, i, batches, b + 1);
    }
  }

  /** A successful enrichment makes one call per batch and waits between consecutive batches only. */
  lemma {:induction false} EnrichCounts(env: Env, i: nat, batches: seq<seq<ApolloContact>>, b: nat)
    requires b < |batches|
    requires EnrichFrom(env, i, batches, b).Returned?
    ensures Calls(BatchEvents(env, i, batches, b)) == |batches| - b
    ensures Delays(BatchEvents(env, i, batches, b)) == |batches| - b - 1
    decreases |batches| - b
  {
    var head := [BulkMatch(PeopleToEnrich(batches[b]))];
    var c := BatchCall(env, i, batches, b);
    assert c.Returned?;
    var rest := BatchEvents(env, i, batches, b + 1);
    if b < |batches| - 1 {
      EnrichCounts(env, i, batches, b + 1);
      assert BatchEvents(env, i, batches, b) == head + ([Delay(DelayMs)] + rest);
      CountsAppend(head, [Delay(DelayMs)] + rest);
      CountsAppend([Delay(DelayMs)], rest);
    } else {
      assert BatchEvents(env, i, batches, b) == head;
    }
  }

  /** The batch loop never ends on a delay: the last event is a call. */
  lemma {:induction false} BatchEventsEndWithCall(env: Env, i: nat, batches: seq<seq<ApolloContact>>, b: nat)
    requires b < |batches|
    ensures var ev := BatchEvents(env, i, batches, b); |ev| > 0 && ev[|ev| - 1].BulkMatch?
    decreases |batches| - b
  {
    if b < |batches| - 1 && BatchCall(env, i, batches, b).Returned? {
      BatchEventsEndWithCall(env, i, batches, b + 1);
    }
  }

  // ---------------------------------------------------------------------
  // One company

  /** The `|| undefined` transform of one contact; the name is passed through. */
  function ToContact(c: ApolloContact): (r: Types.Contact)
    ensures r.name == c.name
    ensures r.email.Some? <==> Truthy(c.email)
    ensures r.phone.Some? <==> Truthy(c.phone)
    ensures r.title.Some? <==> Truthy(c.title)
    ensures r.linkedinUrl.Some? <==> Truthy(c.linkedinUrl)
    ensures r.organizationName.Some? <==> Truthy(c.organizationName)
    ensures r.email.Some? ==> r.email == c.email
    ensures r.phone.Some? ==> r.phone == c.phone
    ensures r.title.Some? ==> r.title == c.title
    ensures r.linkedinUrl.Some? ==> r.linkedinUrl == c.linkedinUrl
    ensures r.organizationName.Some? ==> r.organizationName == c.organizationName
  {
    Types.Contact(c.name, OrAbsent(c.email), OrAbsent(c.phone), OrAbsent(c.title),
                  OrAbsent(c.linkedinUrl), OrAbsent(c.organizationName))
  }

  function Transform(cs: seq<ApolloContact>): (r: seq<Types.Contact>)
    ensures |r| == |cs| && forall k :: 0 <= k < |cs| ==> r[k] == ToContact(cs[k])
  {
    seq(|cs|, k requires 0 <= k < |cs| => ToContact(cs[k]))
  }

  function ContactIds(cs: seq<ApolloContact>): (r: seq<string>)
    ensures |r| == |cs| && forall k :: 0 <= k < |cs| ==> r[k] == cs[k].id
  {
    seq(|cs|, k requires 0 <= k < |cs| => cs[k].id)
  }

  /** `${NEXT_PUBLIC_BASE_URL || "http://localhost:3000"}/api/apollo-webhook?jobId=${id}`. */
  function WebhookUrl(baseUrl: Option<string>, jobId: string): (u: string)
    ensures Truthy(baseUrl) ==> u == baseUrl.value + "/api/apollo-webhook?jobId=" + jobId
    ensures !Truthy(baseUrl) ==> u == DefaultBaseUrl + "/api/apollo-webhook?jobId=" + jobId
  {
    OrEmpty(Or(baseUrl, Some(DefaultBaseUrl))) + "/api/apollo-webhook?jobId=" + jobId
  }

  function DomainOf(env: Env, c: Types.Company): string {
    ExtractDomain(env.hostname(c.url))
  }

  /** `enrichedContacts` after the enrichment step: the batch output, or the search contacts when it threw or was skipped. */
  function EnrichedContacts(env: Env, i: nat, contacts: seq<ApolloContact>): seq<ApolloContact> {
    if contacts == [] then contacts
    else
      match EnrichFrom(env, i, Batches(contacts), 0)
      case Returned(v) => v
      case Threw(_) => contacts
  }

  /** No contacts stay none; otherwise the enrichment keeps the search contacts or takes exactly the batch output. */
  lemma EnrichedContactsChoice(env: Env, i: nat, contacts: seq<ApolloContact>)
    ensures contacts == [] ==> EnrichedContacts(env, i, contacts) == []
    ensures EnrichedContacts(env, i, contacts) == contacts ||
      EnrichFrom(env, i, Batches(contacts), 0) == Returned(EnrichedContacts(env, i, contacts))
  {
  }

  predicate WantsPhones(includePhones: Option<bool>, enriched: seq<ApolloContact>) {
    includePhones == Some(true) && |enriched| > 0
  }

  /** The result pushed for company `i`. */
  function CompanyResultOf(env: Env, includePhones: Option<bool>, i: nat, c: Types.Company): (r: CompanyResult)
    ensures r.company == c.title && r.url == c.url
  {
    var domain := DomainOf(env, c);
    if domain == "" then CompanyResult(c.title, c.url, [], None, Some(InvalidDomain))
    else
      match SearchPeople(env.search(i, domain))
      case Threw(t) => CompanyResult(c.title, c.url, [], None, Some(MessageOr(t, "Failed to fetch contacts")))
      case Returned(contacts) =>
        var enriched := EnrichedContacts(env, i, contacts);
        CompanyResult(c.title, c.url, Transform(enriched),
                      if WantsPhones(includePhones, enriched) then Some(env.uuid(i)) else None, None)
  }

  /** The events of company `i` of `n`. */
  function CompanyEvents(env: Env, includePhones: Option<bool>, i: nat, n: nat, c: Types.Company): seq<Event> {
    var domain := DomainOf(env, c);
    if domain == "" then []
    else
      [Search(domain)] +
      match SearchPeople(env.search(i, domain))
      case Threw(_) => []
      case Returned(contacts) =>
        var enriched := EnrichedContacts(env, i, contacts);
        var id := env.uuid(i);
        (if contacts == [] then [] else BatchEvents(env, i, Batches(contacts), 0)) +
        (if WantsPhones(includePhones, enriched)
         then [JobCreated(id), PhoneRequest(PeopleToEnrich(enriched), WebhookUrl(env.baseUrl, id))]
         else []) +
        (if i + 1 < n then [Delay(DelayMs)] else [])
  }

  /** A company has no events exactly when its domain is empty; otherwise it starts with the search. */
  lemma CompanyEventsStart(env: Env, includePhones: Option<bool>, i: nat, n: nat, c: Types.Company)
    ensures CompanyEvents(env, includePhones, i, n, c) == [] <==> DomainOf(env, c) == ""
    ensures CompanyEvents(env, includePhones, i, n, c) != [] ==>
      CompanyEvents(env, includePhones, i, n, c)[0] == Search(DomainOf(env, c))
  {
  }

  /** The job map after company `i`: a pending job is filed when phones were requested. */
  function CompanyJobs(env: Env, includePhones: Option<bool>, i: nat, c: Types.Company,
                       jobs: JsMap.JsMap<PhoneEnrichmentStore.Job>): (r: JsMap.JsMap<PhoneEnrichmentStore.Job>)
    requires jobs.Valid()
    ensures r.Valid()
  {
    var domain := DomainOf(env, c);
    if domain == "" then jobs
    else
      match SearchPeople(env.search(i, domain))
      case Threw(_) => jobs
      case Returned(contacts) =>
        var enriched := EnrichedContacts(env, i, contacts);
        if WantsPhones(includePhones, enriched)
        then jobs.Set(env.uuid(i), PhoneEnrichmentStore.NewJob(env.uuid(i), c.url, c.title, ContactIds(enriched), env.clock(i)))
        else jobs
  }

  /**
   * The enrichment `try` of one company: the contacts are batched and
   * enriched when there are any, and the search contacts are kept when a
   * batch call throws.
   */
  method EnrichOrKeep(env: Env, i: nat, contacts: seq<ApolloContact>)
    returns (enrichedContacts: seq<ApolloContact>, ghost events: seq<Event>)
    ensures enrichedContacts == EnrichedContacts(env, i, contacts)
    ensures events == if contacts == [] then [] else BatchEvents(env, i, Batches(contacts), 0)
  {
    enrichedContacts := contacts;
    events := [];
    if |contacts| > 0 {
      var batches := MakeBatches(contacts);
      var all;
      all, events := EnrichBatches(env, i, batches);
      if all.Returned? {
        enrichedContacts := all.value;
      }
    }
  }

  /**
   * The phone step of one company: when phones are wanted, a pending job is
   * filed under a fresh id and only then is the phone request sent; its
   * outcome is only logged, so the id stays on the result either way.
   */
  method RequestPhones(env: Env, includePhones: Option<bool>, i: nat, c: Types.Company,
                       enrichedContacts: seq<ApolloContact>, store: PhoneEnrichmentStore.Store)
    returns (phoneJobId: Option<string>, ghost events: seq<Event>)
    requires store.Valid()
    modifies store
    ensures store.Valid()
    ensures !WantsPhones(includePhones, enrichedContacts) ==>
      phoneJobId == None && events == [] && store.jobs == old(store.jobs)
    ensures WantsPhones(includePhones, enrichedContacts) ==>
      var id := env.uuid(i);
      phoneJobId == Some(id) &&
      events == [JobCreated(id), PhoneRequest(PeopleToEnrich(enrichedContacts), WebhookUrl(env.baseUrl, id))] &&
      store.jobs == old(store.jobs).Set(id, PhoneEnrichmentStore.NewJob(id, c.url, c.title, ContactIds(enrichedContacts), env.clock(i)))
    ensures store.cleanupInterval == old(store.cleanupInterval)
  {
    phoneJobId := None;
    events := [];
    if includePhones == Some(true) && |enrichedContacts| > 0 {
      var id := env.uuid(i);
      phoneJobId := Some(id);
      var webhookUrl := WebhookUrl(env.baseUrl, id);
      store.CreateJob(id, c.url, c.title, ContactIds(enrichedContacts), env.clock(i));
      var people := PeopleToEnrich(enrichedContacts);
      events := [JobCreated(id), PhoneRequest(people, webhookUrl)];
      // The outcome of the phone request is only logged.
      var sent := BulkEnrichPhonesWithWebhook(env.phoneMatch(i, people, webhookUrl));
    }
  }

  lemma SeqAssoc3<T>(a: seq<T>, b: seq<T>, c: seq<T>, d: seq<T>)
    ensures a + (b + c + d) == a + b + c + d
  {
  }

  /** A company whose search returned: its result. */
  lemma SearchedResult(env: Env, includePhones: Option<bool>, i: nat, c: Types.Company,
                       domain: string, contacts: seq<ApolloContact>)
    requires domain == DomainOf(env, c) && domain != ""
    requires SearchPeople(env.search(i, domain)) == Returned(contacts)
    ensures var enriched := EnrichedContacts(env, i, contacts);
      CompanyResultOf(env, includePhones, i, c) ==
        CompanyResult(c.title, c.url, Transform(enriched), if WantsPhones(includePhones, enriched) then Some(env.uuid(i)) else None, None)
  {
  }

  /** A company whose search returned: its events. */
  lemma SearchedEvents(env: Env, includePhones: Option<bool>, i: nat, n: nat, c: Types.Company,
                       domain: string, contacts: seq<ApolloContact>)
    requires domain == DomainOf(env, c) && domain != ""
    requires SearchPeople(env.search(i, domain)) == Returned(contacts)
    ensures var enriched := EnrichedContacts(env, i, contacts);
      var id := env.uuid(i);
      CompanyEvents(env, includePhones, i, n, c) ==
        [Search(domain)] + (if contacts == [] then [] else BatchEvents(env, i, Batches(contacts), 0)) +
        (if WantsPhones(includePhones, enriched)
         then [JobCreated(id), PhoneRequest(PeopleToEnrich(enriched), WebhookUrl(env.baseUrl, id))]
         else []) +
        (if i + 1 < n then [Delay(DelayMs)] else [])
  {
    var enriched := EnrichedContacts(env, i, contacts);
    var id := env.uuid(i);
    var batch := if contacts == [] then [] else BatchEvents(env, i, Batches(contacts), 0);
    var phone := if WantsPhones(includePhones, enriched)
      then [JobCreated(id), PhoneRequest(PeopleToEnrich(enriched), WebhookUrl(env.baseUrl, id))]
      else [];
    var tail := if i + 1 < n then [Delay(DelayMs)] else [];
    assert CompanyEvents(env, includePhones, i, n, c) == [Search(domain)] + (batch + phone + tail);
    SeqAssoc3([Search(domain)], batch, phone, tail);
  }

  /** A company whose search returned: the job map after it. */
  lemma SearchedJobs(env: Env, includePhones: Option<bool>, i: nat, c: Types.Company,
                     jobs: JsMap.JsMap<PhoneEnrichmentStore.Job>, domain: string, contacts: seq<ApolloContact>)
    requires jobs.Valid()
    requires domain == DomainOf(env, c) && domain != ""
    requires SearchPeople(env.search(i, domain)) == Returned(contacts)
    ensures var enriched := EnrichedContacts(env, i, contacts);
      var id := env.uuid(i);
      CompanyJobs(env, includePhones, i, c, jobs) ==
        if WantsPhones(includePhones, enriched)
        then jobs.Set(id, PhoneEnrichmentStore.NewJob(id, c.url, c.title, ContactIds(enriched), env.clock(i)))
        else jobs
  {
  }

  /** The body of the company loop, for company `i` of `n`. */
  method ProcessCompany(env: Env, includePhones: Option<bool>, i: nat, n: nat, c: Types.Company,
                        store: PhoneEnrichmentStore.Store)
    returns (r: CompanyResult, ghost events: seq<Event>)
    requires store.Valid()
    modifies store
    ensures store.Valid()
    ensures r == CompanyResultOf(env, includePhones, i, c)
    ensures events == CompanyEvents(env, includePhones, i, n, c)
    ensures store.jobs == CompanyJobs(env, includePhones, i, c, old(store.jobs))
    ensures store.cleanupInterval == old(store.cleanupInterval)
  {
    var domain := ExtractDomain(env.hostname(c.url));
    if domain == "" {
      InvalidDomainNoSearch(env, includePhones, i, n, c, store.jobs);
      r := CompanyResult(c.title, c.url, [], None, Some(InvalidDomain));
      events := [];
      return;
    }
    events := [Search(domain)];
    var found := SearchPeople(env.search(i, domain));
    if found.Threw? {
      SearchFailureIsLocal(env, includePhones, i, n, c, store.jobs);
      r := CompanyResult(c.title, c.url, [], None, Some(MessageOr(found.thrown, "Failed to fetch contacts")));
      return;
    }
    var contacts := found.value;
    SearchedResult(env, includePhones, i, c, domain, contacts);
    SearchedEvents(env, includePhones, i, n, c, domain, contacts);
    SearchedJobs(env, includePhones, i, c, store.jobs, domain, contacts);
    var enrichedContacts, batchEvents := EnrichOrKeep(env, i, contacts);
    var transformed := Transform(enrichedContacts);
    var phoneJobId, phoneEvents := RequestPhones(env, includePhones, i, c, enrichedContacts, store);
    r := CompanyResult(c.title, c.url, transformed, phoneJobId, None);
    events := events + batchEvents + phoneEvents + (if i + 1 < n then [Delay(DelayMs)] else []);
  }

  // ---------------------------------------------------------------------
  // The company loop and the handler

  /** `Math.min(companies.length, limit)`, as a loop bound (a negative limit runs no iteration). */
  function Processed(req: Types.EnrichRequest): (n: nat)
    ensures n <= |req.companies|
    ensures 1 <= req.limit ==> n == if req.limit < |req.companies| then req.limit else |req.companies|
  {
    if req.limit <= 0 then 0 else if req.limit < |req.companies| then req.limit else |req.companies|
  }

  /** The results of the first `k` companies. */
  function ResultsUpTo(env: Env, req: Types.EnrichRequest, k: nat): (r: seq<CompanyResult>)
    requires k <= |req.companies|
    ensures |r| == k
  {
    seq(k, j requires 0 <= j < k => CompanyResultOf(env, req.includePhones, j, req.companies[j]))
  }

  /** The events of the first `k` of `n` companies. */
  function EventsUpTo(env: Env, req: Types.EnrichRequest, n: nat, k: nat): seq<Event>
    requires k <= |req.companies|
  {
    if k == 0 then [] else EventsUpTo(env, req, n, k - 1) + CompanyEvents(env, req.includePhones, k - 1, n, req.companies[k - 1])
  }

  /** The job map after the first `k` companies. */
  function JobsUpTo(env: Env, req: Types.EnrichRequest, k: nat, jobs: JsMap.JsMap<PhoneEnrichmentStore.Job>)
    : (r: JsMap.JsMap<PhoneEnrichmentStore.Job>)
    requires k <= |req.companies| && jobs.Valid()
    ensures r.Valid()
  {
    if k == 0 then jobs
    else CompanyJobs(env, req.includePhones, k - 1, req.companies[k - 1], JobsUpTo(env, req, k - 1, jobs))
  }

  /** The results of the first `i` companies, followed by that of company `i`. */
  lemma ResultsExtend(env: Env, req: Types.EnrichRequest, i: nat, results: seq<CompanyResult>, r: CompanyResult)
    requires i < |req.companies|
    requires results == ResultsUpTo(env, req, i)
    requires r == CompanyResultOf(env, req.includePhones, i, req.companies[i])
    ensures results + [r] == ResultsUpTo(env, req, i + 1)
  {
    var next := ResultsUpTo(env, req, i + 1);
    forall j | 0 <= j < i + 1 ensures (results + [r])[j] == next[j] {
      if j < i {
        assert results[j] == next[j];
      }
    }
  }

  /** The sequential company loop. */
  method EnrichCompanies(env: Env, req: Types.EnrichRequest, store: PhoneEnrichmentStore.Store)
    returns (results: seq<CompanyResult>, ghost events: seq<Event>)
    requires store.Valid()
    modifies store
    ensures store.Valid()
    ensures results == ResultsUpTo(env, req, Processed(req))
    ensures events == EventsUpTo(env, req, Processed(req), Processed(req))
    ensures store.jobs == JobsUpTo(env, req, Processed(req), old(store.jobs))
    ensures store.cleanupInterval == old(store.cleanupInterval)
  {
    var n := Processed(req);
    results := [];
    events := [];
    for i := 0 to n
      invariant store.Valid()
      invariant results == ResultsUpTo(env, req, i)
      invariant events == EventsUpTo(env, req, n, i)
      invariant store.jobs == JobsUpTo(env, req, i, old(store.jobs))
      invariant store.cleanupInterval == old(store.cleanupInterval)
    {
      results, events := CompanyTurn(env, req, n, i, results, events, store, old(store.jobs));
    }
  }

  /** One turn of the company loop: company `i` processed and its result pushed. */
  method CompanyTurn(env: Env, req: Types.EnrichRequest, n: nat, i: nat, results: seq<CompanyResult>,
                     ghost events: seq<Event>, store: PhoneEnrichmentStore.Store,
                     ghost jobs0: JsMap.JsMap<PhoneEnrichmentStore.Job>)
    returns (results': seq<CompanyResult>, ghost events': seq<Event>)
    requires i < n <= |req.companies| && jobs0.Valid()
    requires store.Valid()
    requires results == ResultsUpTo(env, req, i)
    requires events == EventsUpTo(env, req, n, i)
    requires store.jobs == JobsUpTo(env, req, i, jobs0)
    modifies store
    ensures store.Valid()
    ensures results' == ResultsUpTo(env, req, i + 1)
    ensures events' == EventsUpTo(env, req, n, i + 1)
    ensures store.jobs == JobsUpTo(env, req, i + 1, jobs0)
    ensures store.cleanupInterval == old(store.cleanupInterval)
  {
    var r, ev := ProcessCompany(env, req.includePhones, i, n, req.companies[i], store);
    ResultsExtend(env, req, i, results, r);
    EventsExtend(env, req, n, i, events, ev);
    JobsExtend(env, req, i, jobs0, old(store.jobs), store.jobs);
    results' := results + [r];
    events' := events + ev;
  }

  /** The events of the first `i + 1` companies: those of the first `i`, then company `i`'s. */
  lemma EventsExtend(env: Env, req: Types.EnrichRequest, n: nat, i: nat, events: seq<Event>, ev: seq<Event>)
    requires i < |req.companies|
    requires events == EventsUpTo(env, req, n, i)
    requires ev == CompanyEvents(env, req.includePhones, i, n, req.companies[i])
    ensures events + ev == EventsUpTo(env, req, n, i + 1)
  {
  }

  /** The job map after company `i`: company `i`'s filing applied to the map before it. */
  lemma JobsExtend(env: Env, req: Types.EnrichRequest, i: nat, jobs0: JsMap.JsMap<PhoneEnrichmentStore.Job>,
                   before: JsMap.JsMap<PhoneEnrichmentStore.Job>, after: JsMap.JsMap<PhoneEnrichmentStore.Job>)
    requires i < |req.companies| && jobs0.Valid()
    requires before == JobsUpTo(env, req, i, jobs0)
    requires after == CompanyJobs(env, req.includePhones, i, req.companies[i], before)
    ensures after == JobsUpTo(env, req, i + 1, jobs0)
  {
  }

  /**
   * `POST`: a body that does not parse as JSON is a 500, a body the schema
   * rejects a 400 and a missing key a 500, all before any company is
   * touched; otherwise 200 with one result per processed company.
   */
  method HandleEnrich(env: Env, body: Call<Types.Json>, store: PhoneEnrichmentStore.Store)
    returns (resp: Response, ghost events: seq<Event>)
    requires store.Valid()
    modifies store
    ensures store.Valid()
    ensures store.cleanupInterval == old(store.cleanupInterval)
    ensures body.Threw? ==>
      resp == Response(500, ErrorBody(MessageOr(body.thrown, "Enrichment failed"))) &&
      events == [] && store.jobs == old(store.jobs)
    ensures body.Returned? && Types.ParseEnrichRequest(body.value).None? ==>
      resp == Response(400, ErrorBody(env.validationMessage(body.value))) &&
      events == [] && store.jobs == old(store.jobs)
    ensures body.Returned? && Types.ParseEnrichRequest(body.value).Some? && !Truthy(env.apiKey) ==>
      resp == Response(500, ErrorBody("Apollo API key not configured")) &&
      events == [] && store.jobs == old(store.jobs)
    ensures body.Returned? && Types.ParseEnrichRequest(body.value).Some? && Truthy(env.apiKey) ==>
      var req := Types.ParseEnrichRequest(body.value).value;
      resp == Response(200, ResultsBody(ResultsUpTo(env, req, Processed(req)))) &&
      events == EventsUpTo(env, req, Processed(req), Processed(req)) &&
      store.jobs == JobsUpTo(env, req, Processed(req), old(store.jobs))
  {
    if body.Threw? {
      return Response(500, ErrorBody(MessageOr(body.thrown, "Enrichment failed"))), [];
    }
    var parsed := Types.ParseEnrichRequest(body.value);
    if parsed.None? {
      return Response(400, ErrorBody(env.validationMessage(body.value))), [];
    }
    if !Truthy(env.apiKey) {
      return Response(500, ErrorBody("Apollo API key not configured")), [];
    }
    var results;
    results, events := EnrichCompanies(env, parsed.value, store);
    resp := Response(200, ResultsBody(results));
  }

  // ---------------------------------------------------------------------
  // Properties

  /** One result per processed company, in input order, carrying its title and url. */
  lemma {:induction false} ResultsFollowInput(env: Env, req: Types.EnrichRequest, k: nat, j: nat)
    requires k <= |req.companies| && j < k
    ensures ResultsUpTo(env, req, k)[j] == CompanyResultOf(env, req.includePhones, j, req.companies[j])
    ensures ResultsUpTo(env, req, k)[j].company == req.companies[j].title
    ensures ResultsUpTo(env, req, k)[j].url == req.companies[j].url
  {
  }

  /** With a validated request, exactly `min(companies.length, limit)` results. */
  lemma ResultCount(env: Env, req: Types.EnrichRequest)
    requires Types.ValidEnrichRequest(req)
    ensures |ResultsUpTo(env, req, Processed(req))| ==
      if req.limit < |req.companies| then req.limit else |req.companies|
  {
  }

  /** An unusable domain: an error entry and no provider request at all. */
  lemma InvalidDomainNoSearch(env: Env, includePhones: Option<bool>, i: nat, n: nat, c: Types.Company,
                              jobs: JsMap.JsMap<PhoneEnrichmentStore.Job>)
    requires jobs.Valid()
    requires DomainOf(env, c) == ""
    ensures CompanyResultOf(env, includePhones, i, c) == CompanyResult(c.title, c.url, [], None, Some(InvalidDomain))
    ensures CompanyEvents(env, includePhones, i, n, c) == []
    ensures CompanyJobs(env, includePhones, i, c, jobs) == jobs
  {
  }

  /** A failed search: no contacts and the error's message (or the fallback), and nothing but the search happened. */
  lemma SearchFailureIsLocal(env: Env, includePhones: Option<bool>, i: nat, n: nat, c: Types.Company,
                             jobs: JsMap.JsMap<PhoneEnrichmentStore.Job>)
    requires jobs.Valid()
    requires DomainOf(env, c) != ""
    requires SearchPeople(env.search(i, DomainOf(env, c))).Threw?
    ensures var t := SearchPeople(env.search(i, DomainOf(env, c))).thrown;
      CompanyResultOf(env, includePhones, i, c) ==
        CompanyResult(c.title, c.url, [], None, Some(MessageOr(t, "Failed to fetch contacts")))
    ensures CompanyEvents(env, includePhones, i, n, c) == [Search(DomainOf(env, c))]
    ensures CompanyJobs(env, includePhones, i, c, jobs) == jobs
  {
  }

  /** When enrichment throws, the search contacts are kept and the partial batch output is dropped. */
  lemma EnrichFailureKeepsSearch(env: Env, i: nat, contacts: seq<ApolloContact>)
    requires contacts != []
    requires exists k :: 0 <= k < |Batches(contacts)| && BatchCall(env, i, Batches(contacts), k).Threw?
    ensures EnrichedContacts(env, i, contacts) == contacts
  {
    EnrichSucceedsIffAllBatches(env, i, Batches(contacts), 0);
  }

  /** What the batch calls from `b` on returned, one entry per batch (a throw counts as empty). */
  function BatchOutputs(env: Env, i: nat, batches: seq<seq<ApolloContact>>, b: nat): (r: seq<seq<ApolloContact>>)
    requires b <= |batches|
    ensures |r| == |batches| - b
    decreases |batches| - b
  {
    if b == |batches| then []
    else
      var out := match BatchCall(env, i, batches, b) case Returned(v) => v case Threw(_) => [];
      [out] + BatchOutputs(env, i, batches, b + 1)
  }

  /** Entry `k` of the outputs is what the call for batch `b + k` returned. */
  lemma {:induction false} BatchOutputsAt(env: Env, i: nat, batches: seq<seq<ApolloContact>>, b: nat, k: nat)
    requires b + k < |batches| && BatchCall(env, i, batches, b + k).Returned?
    ensures BatchOutputs(env, i, batches, b)[k] == BatchCall(env, i, batches, b + k).value
    decreases k
  {
    if k > 0 {
      BatchOutputsAt(env, i, batches, b + 1, k - 1);
    }
  }

  /** When enrichment succeeds, the contacts are the batch outputs concatenated in batch order. */
  lemma {:induction false} EnrichSuccessConcatenates(env: Env, i: nat, batches: seq<seq<ApolloContact>>, b: nat)
    requires b <= |batches|
    requires EnrichFrom(env, i, batches, b).Returned?
    ensures forall k :: b <= k < |batches| ==> BatchCall(env, i, batches, k).Returned?
    ensures EnrichFrom(env, i, batches, b).value == Flatten(BatchOutputs(env, i, batches, b))
    decreases |batches| - b
  {
    EnrichSucceedsIffAllBatches(env, i, batches, b);
    if b < |batches| {
      EnrichFromStep(env, i, batches, b);
      EnrichSuccessConcatenates(env, i, batches, b + 1);
      var head := BatchCall(env, i, batches, b).value;
      var outs, rest := BatchOutputs(env, i, batches, b), BatchOutputs(env, i, batches, b + 1);
      assert outs == [head] + rest;
      FlattenCons(outs, head, rest);
    }
  }

  /**
   * The delay between companies follows only a successful company that is
   * not the last one: a failed or skipped company, or the last one, leaves
   * no trailing delay.
   */
  lemma TrailingDelay(env: Env, includePhones: Option<bool>, i: nat, n: nat, c: Types.Company)
    ensures var ev := CompanyEvents(env, includePhones, i, n, c);
      (|ev| > 0 && ev[|ev| - 1] == Delay(DelayMs)) <==>
      (DomainOf(env, c) != "" && SearchPeople(env.search(i, DomainOf(env, c))).Returned? && i + 1 < n)
  {
    var domain := DomainOf(env, c);
    if domain != "" && SearchPeople(env.search(i, domain)).Returned? && i + 1 >= n {
      var contacts := SearchPeople(env.search(i, domain)).value;
      var enriched := EnrichedContacts(env, i, contacts);
      if !WantsPhones(includePhones, enriched) && contacts != [] {
        BatchEventsEndWithCall(env, i, Batches(contacts), 0);
      }
    }
  }

  /**
   * Phones requested and contacts found: a pending job is filed under the
   * fresh id with the ids of the enriched contacts, and the result carries
   * that id.
   */
  lemma PhoneJobFiled(env: Env, includePhones: Option<bool>, i: nat, c: Types.Company,
                      jobs: JsMap.JsMap<PhoneEnrichmentStore.Job>, contacts: seq<ApolloContact>)
    requires jobs.Valid()
    requires DomainOf(env, c) != ""
    requires SearchPeople(env.search(i, DomainOf(env, c))) == Returned(contacts)
    requires WantsPhones(includePhones, EnrichedContacts(env, i, contacts))
    ensures CompanyResultOf(env, includePhones, i, c).phoneJobId == Some(env.uuid(i))
    ensures CompanyJobs(env, includePhones, i, c, jobs).Get(env.uuid(i)) ==
      Some(PhoneEnrichmentStore.NewJob(env.uuid(i), c.url, c.title, ContactIds(EnrichedContacts(env, i, contacts)), env.clock(i)))
  {
  }

  /**
   * Phones requested and contacts found: the job is recorded just before
   * the phone request, and the two are the last events of the company but
   * for the delay.
   */
  lemma JobBeforePhoneRequest(env: Env, includePhones: Option<bool>, i: nat, n: nat, c: Types.Company,
                              contacts: seq<ApolloContact>)
    requires DomainOf(env, c) != ""
    requires SearchPeople(env.search(i, DomainOf(env, c))) == Returned(contacts)
    requires WantsPhones(includePhones, EnrichedContacts(env, i, contacts))
    ensures var ev := CompanyEvents(env, includePhones, i, n, c);
      var enriched := EnrichedContacts(env, i, contacts);
      var id := env.uuid(i);
      var p := |ev| - (if i + 1 < n then 3 else 2);
      0 <= p && ev[p] == JobCreated(id) && ev[p + 1] == PhoneRequest(PeopleToEnrich(enriched), WebhookUrl(env.baseUrl, id))
  {
    var domain := DomainOf(env, c);
    var enriched := EnrichedContacts(env, i, contacts);
    var id := env.uuid(i);
    var batch := if contacts == [] then [] else BatchEvents(env, i, Batches(contacts), 0);
    var phone := [JobCreated(id), PhoneRequest(PeopleToEnrich(enriched), WebhookUrl(env.baseUrl, id))];
    var tail: seq<Event> := if i + 1 < n then [Delay(DelayMs)] else [];
    SearchedEvents(env, includePhones, i, n, c, domain, contacts);
    PairBeforeTail(CompanyEvents(env, includePhones, i, n, c), [Search(domain)] + batch, phone, tail);
  }

  /** In `head + pair + tail`, the pair sits just before the tail. */
  lemma PairBeforeTail<T>(s: seq<T>, head: seq<T>, pair: seq<T>, tail: seq<T>)
    requires |pair| == 2 && s == head + pair + tail
    ensures 0 <= |s| - |tail| - 2 && s[|s| - |tail| - 2] == pair[0] && s[|s| - |tail| - 1] == pair[1]
  {
  }

  /** The result does not depend on the phone request's reply: its failure keeps the job id. */
  lemma PhoneReplyIgnored(env: Env, includePhones: Option<bool>, i: nat, c: Types.Company,
                          reply: (nat, seq<PersonRef>, string) -> Reply<()>)
    ensures CompanyResultOf(env.(phoneMatch := reply), includePhones, i, c) == CompanyResultOf(env, includePhones, i, c)
  {
    var env2 := env.(phoneMatch := reply);
    var domain := DomainOf(env, c);
    if domain != "" && SearchPeople(env.search(i, domain)).Returned? {
      var contacts := SearchPeople(env.search(i, domain)).value;
      if contacts != [] {
        EnrichFromIgnoresPhone(env, reply, i, Batches(contacts), 0);
      }
    }
  }

  lemma {:induction false} EnrichFromIgnoresPhone(env: Env, reply: (nat, seq<PersonRef>, string) -> Reply<()>,
                                                  i: nat, batches: seq<seq<ApolloContact>>, b: nat)
    requires b <= |batches|
    ensures EnrichFrom(env.(phoneMatch := reply), i, batches, b) == EnrichFrom(env, i, batches, b)
    decreases |batches| - b
  {
    if b < |batches| {
      EnrichFromIgnoresPhone(env, reply, i, batches, b + 1);
    }
  }

  /** A result with a phone job id comes from a search that returned contacts for which phones were wanted. */
  lemma PhoneIdMeansSearched(env: Env, includePhones: Option<bool>, i: nat, c: Types.Company)
    requires CompanyResultOf(env, includePhones, i, c).phoneJobId.Some?
    ensures DomainOf(env, c) != "" && SearchPeople(env.search(i, DomainOf(env, c))).Returned?
    ensures WantsPhones(includePhones, EnrichedContacts(env, i, SearchPeople(env.search(i, DomainOf(env, c))).value))
  {
  }

  /** Company `i` files nothing under an id other than its own UUID. */
  lemma CompanyJobsElsewhere(env: Env, includePhones: Option<bool>, i: nat, c: Types.Company,
                             jobs: JsMap.JsMap<PhoneEnrichmentStore.Job>, id: string)
    requires jobs.Valid() && id != env.uuid(i)
    ensures CompanyJobs(env, includePhones, i, c, jobs).Get(id) == jobs.Get(id)
  {
  }

  /** A job filed for company `j` is still there, unchanged, after company `k - 1`. */
  lemma {:induction false} JobStaysFiled(env: Env, req: Types.EnrichRequest, k: nat,
                                         jobs: JsMap.JsMap<PhoneEnrichmentStore.Job>, j: nat)
    requires k <= |req.companies| && j < k && jobs.Valid()
    requires forall a, b :: 0 <= a < b < k ==> env.uuid(a) != env.uuid(b)
    requires CompanyResultOf(env, req.includePhones, j, req.companies[j]).phoneJobId.Some?
    ensures var job := JobsUpTo(env, req, k, jobs).Get(env.uuid(j));
      job.Some? && job.value.status == PhoneEnrichmentStore.Pending && job.value.jobId == env.uuid(j) &&
      job.value.companyUrl == req.companies[j].url && job.value.createdAt == env.clock(j)
    decreases k
  {
    var before := JobsUpTo(env, req, k - 1, jobs);
    assert JobsUpTo(env, req, k, jobs) == CompanyJobs(env, req.includePhones, k - 1, req.companies[k - 1], before);
    if j == k - 1 {
      var c := req.companies[j];
      PhoneIdMeansSearched(env, req.includePhones, j, c);
      var contacts := SearchPeople(env.search(j, DomainOf(env, c))).value;
      PhoneJobFiled(env, req.includePhones, j, c, before, contacts);
    } else {
      JobStaysFiled(env, req, k - 1, jobs, j);
      CompanyJobsElsewhere(env, req.includePhones, k - 1, req.companies[k - 1], before, env.uuid(j));
    }
  }

  /**
   * With distinct UUIDs, every result that carries a phone job id finds a
   * pending job under that id once the loop is over.
   */
  lemma PhoneJobsRegistered(env: Env, req: Types.EnrichRequest, k: nat,
                            jobs: JsMap.JsMap<PhoneEnrichmentStore.Job>, j: nat)
    requires k <= |req.companies| && j < k && jobs.Valid()
    requires forall a, b :: 0 <= a < b < k ==> env.uuid(a) != env.uuid(b)
    requires ResultsUpTo(env, req, k)[j].phoneJobId.Some?
    ensures var id := ResultsUpTo(env, req, k)[j].phoneJobId.value;
      var job := JobsUpTo(env, req, k, jobs).Get(id);
      job.Some? && job.value.status == PhoneEnrichmentStore.Pending && job.value.jobId == id &&
      job.value.companyUrl == req.companies[j].url && job.value.createdAt == env.clock(j)
  {
    ResultsFollowInput(env, req, k, j);
    var c := req.companies[j];
    var contacts := SearchPeople(env.search(j, DomainOf(env, c))).value;
    PhoneJobFiled(env, req.includePhones, j, c, jobs, contacts);
    JobStaysFiled(env, req, k, jobs, j);
  }
}
