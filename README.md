# Lead-enrichment core, modelled in Dafny

This project models the contact-enrichment pipeline of a lead-qualification
web application, together with its two in-memory stores:

- **Phone-enrichment job store** (`PhoneEnrichmentStore`). An insertion-ordered
  map of jobs, keyed by job id. It supports create, complete, fail, get,
  lookup by contact id, and an hourly sweep that a ten-minute timer runs.
- **Enrichment endpoint** (`ApolloEnrich`). For the first `min(companies, limit)`
  companies, in order, the endpoint does the following:
  - extracts the domain and searches the contact provider;
  - enriches the contacts in batches of ten, with a 500 ms wait between
    batches, and falls back to the search contacts when a batch call throws;
  - turns empty strings into absent values;
  - when phones are requested, files a pending job before sending the
    asynchronous phone request.
- **Provider callback** (`ApolloWebhook`). It requires a `jobId`, maps the
  matches to contacts, completes the job, and acknowledges the call whether
  or not the job is known.
- **Provider client** (`Apollo`). Query construction, the two record
  mappings with JavaScript `||` semantics, and the error raised for a non-OK
  reply.
- **Search page** (`ExaSearchForm`):
  - CSV field escaping and row building;
  - the descending, stable sort by score and the choice of the top companies;
  - the url-keyed merge of the returned contacts;
  - the bounded 30-pass polling for phone numbers, with its name-keyed phone
    merge.
- **Approval store** (`ApprovalStore`). Create, get, status update, the
  pending list, and the polling wait for a decision with its timeout.
- **Validation schemas** (`Types`). The lead form, the enrichment request
  (limit 1 to 20, default 10), the search request and the enum schemas, as
  parsers from JSON with encoders and round-trip lemmas.

Two helper modules model the language semantics the code relies on:

- `Js`: truthiness of optional strings, `trim`, `replace` with a string
  pattern, `join`, numerals, and thrown values with `instanceof Error`.
- `JsMap`: a `Map` that remembers insertion order. `set` on a present key
  keeps that key's position.

Everything outside the process is a parameter or an oracle:
- the clock;
- the URL parser's hostname;
- the provider's replies and the UUID generator;
- environment variables;
- the status endpoint the page polls;
- the enrichment endpoint as the page sees it.

Awaited delays and provider requests are recorded in a ghost trace of events.
Every operation that reads the clock receives the time as an argument, so no
timer runs.

Where the code and the written description disagree, the model follows the
code:
- `createJob` silently replaces a job with the same id.
- `updateJob` and `failJob` rewrite a job whatever its status.
- The search page's merged list follows the order of the results after the
  in-place sort, not their original order.

## Model

| member | source | states |
|---|---|---|
| `Js.Trim` | app/api/apollo-webhook/route.ts:30 | the result is a slice of the input with only white space cut at both ends, and it neither starts nor ends with white space |
| `Js.ReplaceFirst` | app/api/apollo-enrich/route.ts:10 | with a string pattern only the first occurrence is replaced; without an occurrence the text is unchanged |
| `Js.IndexOfFrom` | app/api/apollo-enrich/route.ts:10 | the index found is an occurrence of the pattern with none before it, and none means no occurrence at all |
| `Js.MessageOr` | app/api/apollo-enrich/route.ts:181-183 | an `Error` yields its message, any other thrown value the fallback text |
| `Js.OrAbsent` | app/api/apollo-webhook/route.ts:31 | `x \|\| undefined` is present exactly when `x` is a non-empty string, and then equals `x` |
| `JsMap.JsMap.Set` | lib/phone-enrichment-store.ts:40 | `set` files the value under the key; a new key goes last, a present key keeps its place |
| `JsMap.JsMap.Delete` | lib/phone-enrichment-store.ts:97 | `delete` removes the key and its entry and keeps the order of the others |
| `JsMap.JsMap.Values` | lib/approval-store.ts:47 | `values()` lists the entries in key insertion order |
| `JsMap.GetAfterSet` | lib/phone-enrichment-store.ts:40 | a key reads back what was set under it, and other keys are unaffected |
| `Types.ParseCategory` | lib/types.ts:32-37 | exactly the four category names are accepted, each naming its own category |
| `Types.CategoryRoundTrip` | lib/types.ts:32-37 | every category parses back from its name |
| `Types.ParseApprovalStatus` | lib/types.ts:59 | exactly "pending", "approved" and "rejected" are accepted |
| `Types.ApprovalStatusRoundTrip` | lib/types.ts:59 | every approval status parses back from its name |
| `Types.ParseApprovalMode` | lib/types.ts:50 | exactly "slack", "terminal" and "none" are accepted |
| `Types.ParseLeadForm` | lib/types.ts:7-24 | an accepted form has a valid email, a name of 2 to 50 characters, a message of 10 to 500, an acceptable phone and a string or absent company, all taken from the body; a rejected body breaks one of these rules |
| `Types.LeadFormRoundTrip` | lib/types.ts:7-24 | every valid lead form is accepted back from its JSON encoding unchanged |
| `Types.PhoneAccepted` | lib/types.ts:13-18 | the phone rule: absent, the literal "", or at least ten characters of the class (definition; `PhoneRuleIsRegex` ties it to the regex) |
| `Types.PhoneClassPlusAll` | lib/types.ts:15 | the regex `^[\d\s\-\+\(\)]+$`, read one character at a time, matches exactly the non-empty strings made only of digits, white space, `-`, `+`, `(` and `)` |
| `Types.PhoneRuleIsRegex` | lib/types.ts:13-18 | a present phone is accepted exactly when it is "" or matches the regex and has at least ten characters |
| `Types.PhoneExamples` | lib/types.ts:13-18 | illustration: an absent or empty phone is accepted, a formatted ten-character number is accepted, and a short or lettered one is refused |
| `Types.ParseCompanies` | lib/types.ts:113-118 | the array is accepted exactly when every element has a string title and url, and it is kept in order |
| `Types.ParseEnrichRequest` | lib/types.ts:112-121 | a body is accepted exactly when its companies array parses, its limit is missing or a number in 1 to 20, and its includePhones is missing or a boolean; the limit is then the given one or 10, includePhones the given boolean or absent, and the companies the parsed array |
| `Types.LimitDefaults` | lib/types.ts:119-120 | a body with valid companies and neither limit nor includePhones is accepted with limit 10 and no phone choice |
| `Types.IncludePhonesMustBeBoolean` | lib/types.ts:120 | a present includePhones that is not a boolean is refused |
| `Types.EnrichRequestRoundTrip` | lib/types.ts:112-121 | every valid enrichment request is accepted back from its JSON encoding unchanged |
| `Types.ParseSearchRequest` | lib/types.ts:68-73 | a search request is accepted exactly when its query is a string of 1 to 5000 characters |
| `Apollo.SearchParams` | lib/apollo.ts:35-52 | the domain, `per_page=10` and `contact_email_status[]=verified` come first, then one `person_titles[]` per title in the listed order |
| `Apollo.PhoneEnrichParams` | lib/apollo.ts:215-218 | the phone request asks for phone numbers and names the webhook url |
| `Apollo.PeopleToEnrich` | app/api/apollo-enrich/route.ts:88-92 | one `{id, first_name, last_name}` entry per contact, in order |
| `Apollo.Details` | lib/apollo.ts:135-139 | the `details` array has the people in order, with only id and names |
| `Apollo.IsOk` | lib/apollo.ts:71 | `response.ok`: a status from 200 to 299 (definition; the three provider calls branch on it) |
| `Apollo.FullName` | lib/apollo.ts:180 | the composed name is no longer than the two parts and a space, and neither starts nor ends with white space |
| `Apollo.FullNameBoth` | lib/apollo.ts:180 | with both parts present and tidy the name is "first last" |
| `Apollo.FullNameOnePart` | lib/apollo.ts:180 | with one part missing or empty the name is the other part, with no stray space |
| `Apollo.FullNameNone` | lib/apollo.ts:180 | with no parts the name is empty |
| `Apollo.FirstPhone` | lib/apollo.ts:182-185 | the first entry's raw number if non-empty, else its sanitized number if non-empty, else absent; a phone found is never empty |
| `Apollo.FirstPhoneOnlyFirst` | lib/apollo.ts:183-184 | entries after the first are never consulted |
| `Apollo.SearchPersonToContact` | lib/apollo.ts:82-99 | the search mapping: the name is `name` if non-empty, else the trimmed "first last"; email and phone are null; the first and last names default to ""; the organization prefers `organization_name`; the flags default to false |
| `Apollo.MatchToContact` | lib/apollo.ts:175-191 | the bulk-match mapping: the name is always composed from the parts; the phone is the first entry's; the organization prefers `organization.name`; empty strings become null |
| `Apollo.OrganizationPreferenceDiffers` | lib/apollo.ts:94-95 | when both organization sources are set and differ, the search mapping and the bulk mapping (lines 188-189) pick different ones |
| `Apollo.RecordsOf` | lib/apollo.ts:175 | a missing `matches` (or `people`) array reads as empty |
| `Apollo.SearchPeople` | lib/apollo.ts:33-120 | a thrown fetch is rethrown; a non-OK reply throws "Apollo API error: status - text"; an OK reply gives one contact per person, in order |
| `Apollo.BulkEnrichPeople` | lib/apollo.ts:123-207 | a thrown fetch is rethrown; a non-OK reply throws "Apollo enrichment error: status - text"; an OK reply gives one contact per match, in order |
| `Apollo.BulkEnrichPhonesWithWebhook` | lib/apollo.ts:210-266 | the request returns exactly when the reply is OK; otherwise it throws, with the status and text for a non-OK reply |
| `PhoneEnrichmentStore.NewJob` | lib/phone-enrichment-store.ts:26-38 | the record `createJob` files: pending, no enriched contacts, created now, no completion time and no error (definition) |
| `PhoneEnrichmentStore.CompletedJob` | lib/phone-enrichment-store.ts:51-53 | the edit `updateJob` makes: completed, with the contacts and the completion time (definition) |
| `PhoneEnrichmentStore.FailedJob` | lib/phone-enrichment-store.ts:68-70 | the edit `failJob` makes: failed, with the error and the completion time (definition) |
| `PhoneEnrichmentStore.SharesId` | lib/phone-enrichment-store.ts:83 | true exactly when some id of the job is among the given ids |
| `PhoneEnrichmentStore.SurvivorsMembers` | lib/phone-enrichment-store.ts:95-100 | the sweep keeps exactly the listed jobs created at or after the cutoff |
| `PhoneEnrichmentStore.SurvivorsExpiredPartition` | lib/phone-enrichment-store.ts:93-100 | every job is kept or deleted, never both, so the count of deletions is the drop in size |
| `PhoneEnrichmentStore.SurvivorsSubsequence` | lib/phone-enrichment-store.ts:95-100 | the kept jobs keep their relative order |
| `PhoneEnrichmentStore.SweepDeleteKeeps` | lib/phone-enrichment-store.ts:96-98 | deleting an expired key keeps the loop's invariant and adds no survivor |
| `PhoneEnrichmentStore.SweepSkipKeeps` | lib/phone-enrichment-store.ts:95-96 | passing over a recent key keeps the loop's invariant and keeps that key in place |
| `PhoneEnrichmentStore.Sweep` | lib/phone-enrichment-store.ts:92-100 | the loop leaves exactly the jobs created at or after the cutoff, with unchanged records, in their order, and counts the deletions |
| `PhoneEnrichmentStore.Store.constructor` | lib/phone-enrichment-store.ts:16-22 | a new store is empty and holds the handle of its running sweep timer |
| `PhoneEnrichmentStore.Store.CreateJob` | lib/phone-enrichment-store.ts:24-42 | a pending job with no contacts, stamped now, is filed under its id, replacing any job there; other jobs are unchanged |
| `PhoneEnrichmentStore.Store.UpdateJob` | lib/phone-enrichment-store.ts:44-59 | an unknown id changes nothing; a known job becomes completed with the contacts and completion time, whatever its status, and no other job or key order changes |
| `PhoneEnrichmentStore.Store.FailJob` | lib/phone-enrichment-store.ts:61-74 | an unknown id changes nothing; a known job becomes failed with the error and completion time, and nothing else changes |
| `PhoneEnrichmentStore.Store.GetJob` | lib/phone-enrichment-store.ts:76-78 | the job filed under the id, or nothing when there is none |
| `PhoneEnrichmentStore.Store.FindJobByContactIds` | lib/phone-enrichment-store.ts:80-89 | the first job in insertion order that shares an id with the given ones; nothing only when no job does |
| `PhoneEnrichmentStore.Store.CleanupOldJobs` | lib/phone-enrichment-store.ts:91-105 | deletes exactly the jobs created more than one hour before now, whatever their status; survivors are unchanged and in order; returns the number deleted |
| `PhoneEnrichmentStore.Store.StopAutoCleanup` | lib/phone-enrichment-store.ts:114-119 | afterwards there is no timer and the jobs are untouched; a second call clears nothing |
| `PhoneEnrichmentStore.CreateThenGet` | lib/phone-enrichment-store.ts:24-41 | a job read back after creation is pending, with no contacts, with the given url, name and contact ids, and created now |
| `PhoneEnrichmentStore.CompleteKeepsIdentity` | lib/phone-enrichment-store.ts:51-55 | completing keeps the id, company, contact ids, creation time and error |
| `PhoneEnrichmentStore.FailKeepsContacts` | lib/phone-enrichment-store.ts:68-72 | failing keeps the enriched contacts, id, contact ids and creation time |
| `PhoneEnrichmentStore.TerminalJobIsRewritten` | lib/phone-enrichment-store.ts:50-55 | a completed or failed job is overwritten by a later completion: the last write wins |
| `ApolloEnrich.ExtractDomain` | app/api/apollo-enrich/route.ts:7-14 | an unparsable url gives ""; otherwise the hostname with its first "www." removed, wherever it occurs |
| `ApolloEnrich.ExtractDomainLeading` | app/api/apollo-enrich/route.ts:10 | a leading "www." is removed |
| `ApolloEnrich.ExtractDomainInner` | app/api/apollo-enrich/route.ts:10 | a "www." inside the hostname is removed too |
| `ApolloEnrich.ExtractDomainOnlyFirst` | app/api/apollo-enrich/route.ts:10 | of two occurrences only the first is removed |
| `ApolloEnrich.BatchesCount` | app/api/apollo-enrich/route.ts:79-82 | n contacts make ceil(n/10) batches |
| `ApolloEnrich.BatchesAreSlices` | app/api/apollo-enrich/route.ts:80-81 | batch b is the slice from 10b to min(10b+10, n), so it has 1 to 10 contacts |
| `ApolloEnrich.BatchesFlatten` | app/api/apollo-enrich/route.ts:79-82 | the batches concatenated give back the contacts, in order |
| `ApolloEnrich.MakeBatches` | app/api/apollo-enrich/route.ts:79-82 | the loop builds exactly those batches |
| `ApolloEnrich.EnrichBatches` | app/api/apollo-enrich/route.ts:84-102 | the batch loop returns the concatenated outputs or the first throw, and records one call per batch attempted with a wait between consecutive batches |
| `ApolloEnrich.EnrichSucceedsIffAllBatches` | app/api/apollo-enrich/route.ts:84-109 | enrichment returns exactly when every batch call returns |
| `ApolloEnrich.EnrichCounts` | app/api/apollo-enrich/route.ts:86-102 | a successful enrichment makes one call per batch and waits exactly batches - 1 times |
| `ApolloEnrich.BatchEventsEndWithCall` | app/api/apollo-enrich/route.ts:97-101 | the batch loop does not wait after its last call |
| `ApolloEnrich.EnrichSuccessConcatenates` | app/api/apollo-enrich/route.ts:94-104 | a successful enrichment is the batch outputs concatenated in batch order |
| `ApolloEnrich.EnrichFailureKeepsSearch` | app/api/apollo-enrich/route.ts:71-109 | when any batch call throws, the partial output is dropped and the search contacts are kept |
| `ApolloEnrich.EnrichedContacts` | app/api/apollo-enrich/route.ts:71-109 | `enrichedContacts` after the enrichment step: the batch output, or the search contacts when there were none or a batch call threw (definition) |
| `ApolloEnrich.EnrichedContactsChoice` | app/api/apollo-enrich/route.ts:71-109 | no contacts stay none; otherwise the result is the search contacts or exactly what the batch enrichment returned |
| `ApolloEnrich.EnrichOrKeep` | app/api/apollo-enrich/route.ts:71-109 | the enrichment step gives the enriched contacts, with the batch calls as its events only when there were contacts |
| `ApolloEnrich.ToContact` | app/api/apollo-enrich/route.ts:113-120 | the name passes through; each other field is present exactly when it is a non-empty string, and then unchanged |
| `ApolloEnrich.Transform` | app/api/apollo-enrich/route.ts:113-120 | one transformed contact per contact, in order |
| `ApolloEnrich.ContactIds` | app/api/apollo-enrich/route.ts:143 | the ids of the contacts, in order |
| `ApolloEnrich.WebhookUrl` | app/api/apollo-enrich/route.ts:132-133 | the configured base url, or "http://localhost:3000" when it is unset or empty, followed by the webhook path and the job id |
| `ApolloEnrich.CompanyResultOf` | app/api/apollo-enrich/route.ts:48-185 | the result pushed for a company carries its title and url |
| `ApolloEnrich.CompanyEvents` | app/api/apollo-enrich/route.ts:48-185 | the events of one company: the search, its batch calls, the job and phone request, and the wait (definition; `SearchedEvents` and `TrailingDelay` state its parts) |
| `ApolloEnrich.CompanyEventsStart` | app/api/apollo-enrich/route.ts:49-69 | a company has no events exactly when its domain is empty, and otherwise its first event is the search for that domain |
| `ApolloEnrich.CompanyJobs` | app/api/apollo-enrich/route.ts:125-145 | the job map after a company is still a well-formed insertion-ordered map |
| `ApolloEnrich.RequestPhones` | app/api/apollo-enrich/route.ts:125-166 | without phones wanted, no job id, no event and an untouched store; otherwise the fresh id, the job filed then the phone request sent, and a pending job for the enriched contacts' ids under that id |
| `ApolloEnrich.ProcessCompany` | app/api/apollo-enrich/route.ts:48-185 | the body of the company loop produces that company's result, events and job filing as the specification functions define them |
| `ApolloEnrich.Processed` | app/api/apollo-enrich/route.ts:47 | the loop bound is min(companies, limit) for a positive limit and never exceeds the company count |
| `ApolloEnrich.EnrichCompanies` | app/api/apollo-enrich/route.ts:43-186 | the loop yields one result per processed company, and the events and job map of all of them |
| `ApolloEnrich.HandleEnrich` | app/api/apollo-enrich/route.ts:19-199 | an unparsable body gives 500; a refused body gives 400 with the validation message; a missing key gives 500 "Apollo API key not configured", all with no event and no job; otherwise 200 with the results |
| `ApolloEnrich.ResultsFollowInput` | app/api/apollo-enrich/route.ts:47-63 | result j is that of company j, with its title and url |
| `ApolloEnrich.ResultCount` | app/api/apollo-enrich/route.ts:47 | a validated request gets exactly min(companies, limit) results |
| `ApolloEnrich.InvalidDomainNoSearch` | app/api/apollo-enrich/route.ts:55-63 | an empty domain gives no contacts, the invalid-URL error, no provider request and no job |
| `ApolloEnrich.SearchFailureIsLocal` | app/api/apollo-enrich/route.ts:174-185 | a failed search gives no contacts and the error's message, or "Failed to fetch contacts"; nothing but the search happened for that company |
| `ApolloEnrich.SearchedResult` | app/api/apollo-enrich/route.ts:66-167 | a company whose search returned gets its title, url, transformed enriched contacts, no error, and the fresh job id exactly when phones were wanted for a non-empty enrichment |
| `ApolloEnrich.SearchedEvents` | app/api/apollo-enrich/route.ts:66-173 | a company whose search returned records the search, its batch calls when contacts were found, the job and phone request when phones were wanted, and the wait unless it is the last company, in that order |
| `ApolloEnrich.SearchedJobs` | app/api/apollo-enrich/route.ts:126-145 | a company whose search returned adds a new pending job under the fresh id exactly when phones were wanted, and leaves the job map alone otherwise |
| `ApolloEnrich.TrailingDelay` | app/api/apollo-enrich/route.ts:169-173 | a company ends with the 500 ms wait exactly when it succeeded and is not the last one |
| `ApolloEnrich.PhoneJobFiled` | app/api/apollo-enrich/route.ts:126-145 | with phones requested and contacts found, a pending job with the enriched contacts' ids is filed under the fresh id, and the result carries that id |
| `ApolloEnrich.JobBeforePhoneRequest` | app/api/apollo-enrich/route.ts:138-153 | with phones requested and contacts found, the job is recorded immediately before the phone request, and the two close the company's events but for the delay |
| `ApolloEnrich.PhoneReplyIgnored` | app/api/apollo-enrich/route.ts:153-166 | the result does not depend on the phone request's reply, so a failed request keeps the job id |
| `ApolloEnrich.EnrichFromIgnoresPhone` | app/api/apollo-enrich/route.ts:84-102 | the batch enrichment does not depend on the phone request's reply |
| `ApolloEnrich.PhoneIdMeansSearched` | app/api/apollo-enrich/route.ts:125-129 | a result carries a phone job id only if its search returned and phones were wanted for its enriched contacts |
| `ApolloEnrich.CompanyJobsElsewhere` | app/api/apollo-enrich/route.ts:138-144 | a company files nothing under any id other than its own fresh UUID |
| `ApolloEnrich.JobStaysFiled` | app/api/apollo-enrich/route.ts:47-167 | with distinct UUIDs, a job filed for an earlier company is still pending, for that company's url, with its creation time, after every later company |
| `ApolloEnrich.PhoneJobsRegistered` | app/api/apollo-enrich/route.ts:125-167 | with distinct UUIDs, every result with a phone job id finds a pending job for its company under that id once the loop ends |
| `ApolloWebhook.MatchToWebhookContact` | app/api/apollo-webhook/route.ts:28-41 | the name is the trimmed "first last"; the phone is the first entry's; the organization prefers `organization.name`; empty strings become absent |
| `ApolloWebhook.WebhookContacts` | app/api/apollo-webhook/route.ts:28 | one contact per match, in order; a missing `matches` gives none |
| `ApolloWebhook.WebhookAgreesWithBulkMatch` | app/api/apollo-webhook/route.ts:29-40 | the callback's contact equals the one the endpoint builds from the bulk-match mapping and its transform |
| `ApolloWebhook.HandleWebhook` | app/api/apollo-webhook/route.ts:5-60 | a missing or empty job id gives 400 with the store untouched; an unreadable body gives 500; otherwise the job is completed (an unknown id changes nothing) and the call gets 200 |
| `ExaSearchForm.DoubleQuotes` | components/exa-search-form.tsx:75 | doubling quotes adds no other character and drops none |
| `ExaSearchForm.DoubleQuotesNoQuotes` | components/exa-search-form.tsx:75 | a text without quotes is unchanged |
| `ExaSearchForm.UnDoubleDoubleQuotes` | components/exa-search-form.tsx:75 | reading `""` as `"` undoes the doubling |
| `ExaSearchForm.EscapeCSVField` | components/exa-search-form.tsx:72-81 | absent or empty gives ""; a field with a comma, line feed or quote is doubled and wrapped in quotes; any other field is unchanged |
| `ExaSearchForm.EscapeRoundTrip` | components/exa-search-form.tsx:72-81 | stripping the wrapping quotes and un-doubling recovers the field, with absent read as empty |
| `ExaSearchForm.CompanyColumns` | components/exa-search-form.tsx:256-263 | eight company columns |
| `ExaSearchForm.ContactColumns` | components/exa-search-form.tsx:282-286 | five contact columns |
| `ExaSearchForm.ResultRows` | components/exa-search-form.tsx:250-289 | the rows of one result: one per contact, or a single row of `null` contact columns (definition) |
| `ExaSearchForm.ResultRowsShape` | components/exa-search-form.tsx:250-289 | one row per contact, or a single row without contacts; each row is 13 wide and starts with the eight company columns |
| `ExaSearchForm.Rows` | components/exa-search-form.tsx:249-290 | every result contributes at least one row |
| `ExaSearchForm.CsvContent` | components/exa-search-form.tsx:293-296 | the header line, then one comma-joined line per row, joined by newlines (definition) |
| `ExaSearchForm.BuildRows` | components/exa-search-form.tsx:247-290 | the nested loops push exactly the rows of every result, in order |
| `ExaSearchForm.RowsShape` | components/exa-search-form.tsx:230-290 | max(1, contacts) rows per result, each 13 columns wide like the header |
| `ExaSearchForm.NoContactRow` | components/exa-search-form.tsx:254-269 | a result without contacts gives one row whose five contact columns are the literal `null` |
| `ExaSearchForm.HandleExportCSV` | components/exa-search-form.tsx:221-296 | the enriched results if any, else the results, are exported; nothing to export gives no file; otherwise the header line and one line per row |
| `ExaSearchForm.SortByScore` | components/exa-search-form.tsx:94-95 | the sort keeps the length; `SortOrdered`, `SortPermutes` and `SortStable` give the order, the permutation and the stability |
| `ExaSearchForm.InsertPermutes` | components/exa-search-form.tsx:95 | inserting one result adds it and loses nothing |
| `ExaSearchForm.SortOrdered` | components/exa-search-form.tsx:94-95 | the sort orders by descending score, a missing score counting as 0 |
| `ExaSearchForm.SortPermutes` | components/exa-search-form.tsx:95 | the sort is a permutation: it loses and adds nothing |
| `ExaSearchForm.SortStable` | components/exa-search-form.tsx:95 | results with equal scores keep their order |
| `ExaSearchForm.TopCompanies` | components/exa-search-form.tsx:96-97 | the first min(limit, n) sorted results, as title and url, in order |
| `ExaSearchForm.TopCompaniesAreBest` | components/exa-search-form.tsx:94-97 | no result left out scores higher than one sent |
| `ExaSearchForm.FindByUrl` | components/exa-search-form.tsx:119 | the first entry with the url, or none when no entry has it |
| `ExaSearchForm.Merge` | components/exa-search-form.tsx:118-124 | same length and order; each result gets the contacts of the first entry with its url, or none |
| `ExaSearchForm.MergeFirstMatch` | components/exa-search-form.tsx:118-124 | a result whose first matching entry is k gets exactly entry k's contacts |
| `ExaSearchForm.JobIdsToPoll` | components/exa-search-form.tsx:134-139 | the loop builds the job map of the reply |
| `ExaSearchForm.JobIdsExactly` | components/exa-search-form.tsx:134-139 | the map holds exactly the non-empty job ids, each with the url of the last result carrying it |
| `ExaSearchForm.HandleApolloEnrich` | components/exa-search-form.tsx:83-154 | no results means nothing is done; otherwise the results are sorted, the top companies posted, and on success the reply merged and the jobs handed to polling when phones were requested and there are jobs |
| `ExaSearchForm.FindByName` | components/exa-search-form.tsx:180-182 | the first enriched contact with the name, or none |
| `ExaSearchForm.WithPhone` | components/exa-search-form.tsx:179-186 | only the phone can change, and only to the non-empty phone of the first enriched contact with the same name |
| `ExaSearchForm.MergePhones` | components/exa-search-form.tsx:173-191 | results with another url are unchanged; results with the job's url change only in their contacts' phones |
| `ExaSearchForm.PassRemovesTerminal` | components/exa-search-form.tsx:164-202 | a pass removes exactly the jobs whose own status was completed or failed; a thrown lookup skips no other job |
| `ExaSearchForm.PollPass` | components/exa-search-form.tsx:164-199 | the loop over the entries gives the completed jobs and the merged results of one pass |
| `ExaSearchForm.DeleteAll` | components/exa-search-form.tsx:202 | the completed ids are gone and every other entry stays unchanged |
| `ExaSearchForm.DeleteCompleted` | components/exa-search-form.tsx:202 | the deletion loop removes the completed ids |
| `ExaSearchForm.PollPhoneEnrichment` | components/exa-search-form.tsx:156-219 | the passes follow the polling specification until no job is left or 30 passes were made |
| `ExaSearchForm.PollBounded` | components/exa-search-form.tsx:204-215 | polling makes 1 to 30 passes; it ends as done exactly when no job is left, and a timeout comes after exactly 30 passes |
| `ExaSearchForm.PassKeepsNonTerminal` | components/exa-search-form.tsx:169-198 | a pending, unknown or unreadable job stays for the next pass |
| `ApprovalStore.PendingOf` | lib/approval-store.ts:47-49 | the filter yields only pending requests and is no longer than its input |
| `ApprovalStore.PendingOfMembers` | lib/approval-store.ts:46-50 | the filter keeps exactly the pending requests |
| `ApprovalStore.PendingOfOrder` | lib/approval-store.ts:46-50 | the pending requests keep their insertion order |
| `ApprovalStore.Store.constructor` | lib/approval-store.ts:6 | the store starts empty |
| `ApprovalStore.Store.Create` | lib/approval-store.ts:15-18 | the request is filed under its id, replacing any request there; others are unchanged |
| `ApprovalStore.Store.Get` | lib/approval-store.ts:23-25 | the request filed under the id, or nothing |
| `ApprovalStore.Store.Update` | lib/approval-store.ts:30-41 | an unknown id changes nothing; a known request gets only the new status; the feedback is dropped and no other entry changes |
| `ApprovalStore.Store.GetPending` | lib/approval-store.ts:46-50 | exactly the stored requests whose status is pending, in insertion order |
| `ApprovalStore.CreateThenGet` | lib/approval-store.ts:15-25 | a request reads back after creation, and a second create under the same id replaces it |
| `ApprovalStore.UpdateLeavesPending` | lib/approval-store.ts:30-50 | a decided request leaves the pending list, and every other pending request stays in it |
| `ApprovalStore.ElapsedGrows` | lib/approval-store.ts:60-65 | since each undecided poll sleeps a second, the check guarding poll q comes at least q seconds after the start |
| `ApprovalStore.WaitForApproval` | lib/approval-store.ts:55-68 | the polling loop, with the timeout defaulting to 300000 ms, returns the outcome and makes the number of polls that the wait specification defines, at most 300 with the default timeout |
| `ApprovalStore.WaitPollsMeaning` | lib/approval-store.ts:59-67 | every poll came in time and all but the last saw nothing decided; a decision is what the last poll saw; a timeout follows a last poll that saw nothing decided |
| `ApprovalStore.DefaultWaitPolls` | lib/approval-store.ts:57-65 | with the default five-minute timeout the wait polls at most 300 times |
| `ApprovalStore.WaitDecision` | lib/approval-store.ts:55-64 | a returned status is non-pending and is the one the first deciding poll saw, within the time, with no earlier poll deciding |
| `ApprovalStore.WaitTimeout` | lib/approval-store.ts:59-67 | a failure is "Approval timeout", and comes only after every poll in time saw no decision |
| `ApprovalStore.AlreadyDecided` | lib/approval-store.ts:60-64 | a request already decided is reported at the first poll when it comes in time |

## Left out

- Network I/O. The provider's HTTP exchanges, the page's POST to the
  enrichment endpoint and the status endpoint it polls are oracles.
  - The status endpoint (`app/api/phone-enrichment-status/[jobId]/route.ts`)
    is not part of this model.
  - The oracles are deterministic functions of their inputs. A reply is
    indexed by company and batch, or by pass and job id.
- Timers and the clock:
  - `setInterval`/`clearInterval` are a timer handle only;
  - the 500 ms `delay` is a ghost event;
  - the 1-second sleep of the approval wait is taken as the clock advancing by at least 1000 ms;
  - the 2-second `setTimeout` between polling passes is not modelled;
  - `Date.now()` is a parameter.
- Concurrency: the webhook, the polling, the sweep and the approval
  decisions run one after another, each atomically. During the approval
  wait, other handlers are represented only by what each poll observes.
- Logging (`console.*`), toasts, React state, rendering and the Blob/DOM
  download.
- File persistence: `persist`/`load` of the approval store
  (lib/approval-store.ts:73-99). Failures of `persist` are not modelled.
- `Apollo.SearchParams`, `Apollo.PhoneEnrichParams`, `Apollo.Details`: the query
  parameters and the `details` body are built, but the request events carry
  only the domain, the people and the webhook url, and each reply is an oracle
  of the company; the model does not tie the query a call sent to the reply
  it received.
- Foreign validation: zod's email check is a predicate parameter. This list
  also covers the URL parser and zod's error message text (a parameter of
  the endpoint).
- Numbers:
  - scores are floats in the program and integers here;
  - their text form in the export is a parameter;
  - a fractional `limit` such as 2.5, which the schema would accept, is not
    modelled;
  - JSON numbers are integers.
- Strings:
  - string lengths are counted in characters, not UTF-16 code units;
  - non-string JSON values in provider records are not modelled (a field is
    a string or missing);
  - a `null`, non-object or missing webhook body or match is not modelled,
    which would throw in the code;
  - nor is a status reply without `contacts`.
- Aliasing:
  - `updateJob`, `failJob` and `update` edit the stored record in place;
  - the model replaces it by value, so a caller holding the old record
    does not see the edit.
- `ExaSearchForm.HandleApolloEnrich`: the in-place `results.sort` is modelled as a function on a sequence (a stable insertion sort) whose result replaces the shown list, not as an update of an array.
- `ApprovalStore.WaitForApproval`: requires the clock to advance by at
  least a second between polls, as the one-second sleep makes it do. The model does not
  cover a stalled clock. With a stalled clock the code would loop forever.
- `ApolloEnrich.HandleEnrich`: the UUID generator and the clock are read per company, and the validation message is an oracle of the body.
- `ExaSearchForm.PollPhoneEnrichment`: statuses other than `completed` and `failed` (pending, unknown, error bodies) are treated alike, as the code does, and the toasts at the end are not modelled.
- The LLM, Slack, workflow and CLI code, the search endpoint and the
  duplicate copies of the lead-form schema are outside this core.
