/**
 * The shared types and the request schemas of lib/types.ts. Each zod schema
 * becomes a parser from a JSON value to the typed record it produces on
 * success (`safeParse(...).success` is `r.Some?`); each parser is paired with
 * an encoder and a round-trip lemma.
 */
module Types {
  import opened Wrappers
  import Js

  /** A JSON value as it arrives in a request body (numbers are integers here). */
  datatype Json =
    | JNull
    | JBool(b: bool)
    | JNumber(n: int)
    | JString(s: string)
    | JArray(items: seq<Json>)
    | JObject(fields: map<string, Json>)

  /** A property of a JSON object; `None` when the key is missing or the value is not an object. */
  function Field(j: Json, key: string): (r: Option<Json>)
    ensures r.Some? <==> j.JObject? && key in j.fields
    ensures r.Some? ==> r.value == j.fields[key]
  {
    if j.JObject? && key in j.fields then Some(j.fields[key]) else None
  }

  /** `z.string()` on a property that must be present. */
  function StringField(j: Json, key: string): (r: Option<string>)
    ensures r.Some? <==> Field(j, key).Some? && Field(j, key).value.JString?
    ensures r.Some? ==> Field(j, key) == Some(JString(r.value))
  {
    match Field(j, key)
    case Some(JString(s)) => Some(s)
    case _ => None
  }

  /** The contact shape returned to the browser (apolloContactSchema). */
  datatype Contact = Contact(
    name: string,
    email: Option<string>,
    phone: Option<string>,
    title: Option<string>,
    linkedinUrl: Option<string>,
    organizationName: Option<string>)

  // ---------------------------------------------------------------------
  // Enum schemas

  datatype QualificationCategory = Qualified | Unqualified | Support | FollowUp

  function CategoryName(c: QualificationCategory): string {
    match c
    case Qualified => "QUALIFIED"
    case Unqualified => "UNQUALIFIED"
    case Support => "SUPPORT"
    case FollowUp => "FOLLOW_UP"
  }

  /** `qualificationCategorySchema`: exactly the four names are accepted. */
  function ParseCategory(s: string): (r: Option<QualificationCategory>)
    ensures r.Some? <==> s == "QUALIFIED" || s == "UNQUALIFIED" || s == "SUPPORT" || s == "FOLLOW_UP"
    ensures r.Some? ==> CategoryName(r.value) == s
  {
    if s == "QUALIFIED" then Some(Qualified)
    else if s == "UNQUALIFIED" then Some(Unqualified)
    else if s == "SUPPORT" then Some(Support)
    else if s == "FOLLOW_UP" then Some(FollowUp)
    else None
  }

  lemma CategoryRoundTrip(c: QualificationCategory)
    ensures ParseCategory(CategoryName(c)) == Some(c)
  {
  }

  datatype ApprovalStatus = Pending | Approved | Rejected

  function ApprovalStatusName(s: ApprovalStatus): string {
    match s
    case Pending => "pending"
    case Approved => "approved"
    case Rejected => "rejected"
  }

  /** The `status` enum of approvalRequestSchema. */
  function ParseApprovalStatus(s: string): (r: Option<ApprovalStatus>)
    ensures r.Some? <==> s == "pending" || s == "approved" || s == "rejected"
    ensures r.Some? ==> ApprovalStatusName(r.value) == s
  {
    if s == "pending" then Some(Pending)
    else if s == "approved" then Some(Approved)
    else if s == "rejected" then Some(Rejected)
    else None
  }

  lemma ApprovalStatusRoundTrip(s: ApprovalStatus)
    ensures ParseApprovalStatus(ApprovalStatusName(s)) == Some(s)
  {
  }

  datatype ApprovalMode = Slack | Terminal | NoApproval

  function ApprovalModeName(m: ApprovalMode): string {
    match m
    case Slack => "slack"
    case Terminal => "terminal"
    case NoApproval => "none"
  }

  /** `approvalModeSchema`. */
  function ParseApprovalMode(s: string): (r: Option<ApprovalMode>)
    ensures r.Some? <==> s == "slack" || s == "terminal" || s == "none"
    ensures r.Some? ==> ApprovalModeName(r.value) == s
  {
    if s == "slack" then Some(Slack)
    else if s == "terminal" then Some(Terminal)
    else if s == "none" then Some(NoApproval)
    else None
  }

  datatype Qualification = Qualification(category: QualificationCategory, reason: string)

  /** approvalRequestSchema, as the typed record the approval store holds. */
  datatype ApprovalRequest = ApprovalRequest(
    id: string,
    research: string,
    email: string,
    qualification: Qualification,
    timestamp: int,
    status: ApprovalStatus,
    mode: ApprovalMode)

  // ---------------------------------------------------------------------
  // formSchema (the lead form)

  datatype LeadForm = LeadForm(
    email: string,
    name: string,
    phone: Option<string>,
    company: Option<string>,
    message: string)

  /** The character class `[\d\s\-\+\(\)]`. */
  predicate IsPhoneChar(c: char) {
    ('0' <= c <= '9') || Js.IsWhiteSpace(c) || c == '-' || c == '+' || c == '(' || c == ')'
  }

  /** The phone rule: absent, the literal "", or at least ten characters of the class. */
  predicate PhoneAccepted(p: Option<string>) {
    match p
    case None => true
    case Some(s) => s == "" || (|s| >= 10 && forall i :: 0 <= i < |s| ==> IsPhoneChar(s[i]))
  }

  /** What a lead form that passed validation satisfies; `isEmail` is zod's email check. */
  predicate ValidLeadForm(f: LeadForm, isEmail: string -> bool) {
    && isEmail(f.email)
    && 2 <= |f.name| <= 50
    && PhoneAccepted(f.phone)
    && 10 <= |f.message| <= 500
  }

  /** An optional string property: missing is accepted, a string is kept, anything else fails. */
  function OptionalString(j: Json, key: string): (r: Result<Option<string>, ()>)
    ensures r.Success? <==> Field(j, key).None? || Field(j, key).value.JString?
    ensures r == Success(None) <==> Field(j, key).None?
    ensures r.Success? && r.value.Some? ==> Field(j, key) == Some(JString(r.value.value))
  {
    match Field(j, key)
    case None => Success(None)
    case Some(JString(s)) => Success(Some(s))
    case Some(_) => Failure(())
  }

  /** `formSchema.safeParse`. */
  function ParseLeadForm(j: Json, isEmail: string -> bool): (r: Option<LeadForm>)
    ensures r.Some? ==> ValidLeadForm(r.value, isEmail)
    ensures r.Some? ==>
      && StringField(j, "email") == Some(r.value.email)
      && StringField(j, "name") == Some(r.value.name)
      && StringField(j, "message") == Some(r.value.message)
      && OptionalString(j, "phone") == Success(r.value.phone)
      && OptionalString(j, "company") == Success(r.value.company)
    ensures r.None? ==>
      || StringField(j, "email").None? || !isEmail(StringField(j, "email").value)
      || StringField(j, "name").None? || !(2 <= |StringField(j, "name").value| <= 50)
      || StringField(j, "message").None? || !(10 <= |StringField(j, "message").value| <= 500)
      || OptionalString(j, "phone").Failure? || !PhoneAccepted(OptionalString(j, "phone").value)
      || OptionalString(j, "company").Failure?
  {
    var email := StringField(j, "email");
    var name := StringField(j, "name");
    var message := StringField(j, "message");
    var phone := OptionalString(j, "phone");
    var company := OptionalString(j, "company");
    if email.Some? && isEmail(email.value) && name.Some? && 2 <= |name.value| <= 50
       && message.Some? && 10 <= |message.value| <= 500
       && phone.Success? && PhoneAccepted(phone.value) && company.Success?
    then Some(LeadForm(email.value, name.value, phone.value, company.value, message.value))
    else None
  }

  function PutOptional(fields: map<string, Json>, key: string, v: Option<string>): map<string, Json> {
    if v.Some? then fields[key := JString(v.value)] else fields
  }

  /** The JSON the lead form submits. */
  function EncodeLeadForm(f: LeadForm): Json {
    var required := map["email" := JString(f.email), "name" := JString(f.name), "message" := JString(f.message)];
    JObject(PutOptional(PutOptional(required, "phone", f.phone), "company", f.company))
  }

  /** Every valid form survives a trip through its JSON encoding. */
  lemma LeadFormRoundTrip(f: LeadForm, isEmail: string -> bool)
    requires ValidLeadForm(f, isEmail)
    ensures ParseLeadForm(EncodeLeadForm(f), isEmail) == Some(f)
  {
    var j := EncodeLeadForm(f);
    assert StringField(j, "email") == Some(f.email);
    assert StringField(j, "name") == Some(f.name);
    assert StringField(j, "message") == Some(f.message);
    assert OptionalString(j, "phone") == Success(f.phone);
    assert OptionalString(j, "company") == Success(f.company);
  }

  /**
   * `[class]+`: one or more characters of the phone class, read one
   * character at a time as the regex engine does.
   */
  predicate MatchesPhoneClassPlus(s: string) {
    |s| >= 1 && IsPhoneChar(s[0]) && (|s| == 1 || MatchesPhoneClassPlus(s[1..]))
  }

  /** `^[class]+$` matches exactly the non-empty strings made only of class characters. */
  lemma {:induction false} PhoneClassPlusAll(s: string)
    ensures MatchesPhoneClassPlus(s) <==> |s| >= 1 && forall i :: 0 <= i < |s| ==> IsPhoneChar(s[i])
  {
    if |s| > 1 {
      PhoneClassPlusAll(s[1..]);
      assert forall i :: 1 <= i < |s| ==> s[i] == s[1..][i - 1];
    }
  }

  /**
   * The phone rule is the schema's reading: absent, the literal "", or a
   * string that matches the regex and has at least ten characters.
   */
  lemma PhoneRuleIsRegex(s: string)
    ensures PhoneAccepted(Some(s)) <==> s == "" || (MatchesPhoneClassPlus(s) && |s| >= 10)
  {
    PhoneClassPlusAll(s);
  }

  /**
   * Concrete cases of the phone rule, as an illustration only: the rule
   * itself is stated for every input by `PhoneRuleIsRegex` and by the
   * contract of `ParseLeadForm`.
   */
  lemma PhoneExamples()
    ensures PhoneAccepted(None) && PhoneAccepted(Some(""))
    ensures PhoneAccepted(Some("+1 (555) 010-9999"))
    ensures !PhoneAccepted(Some("555-0199"))
    ensures !PhoneAccepted(Some("555-0199 ext"))
  {
    var ext := "555-0199 ext";
    assert !IsPhoneChar(ext[9]);
  }

  // ---------------------------------------------------------------------
  // apolloEnrichRequestSchema

  datatype Company = Company(title: string, url: string)

  datatype EnrichRequest = EnrichRequest(companies: seq<Company>, limit: int, includePhones: Option<bool>)

  const DefaultLimit := 10

  predicate ValidEnrichRequest(r: EnrichRequest) {
    1 <= r.limit <= 20
  }

  /** `z.object({title: z.string(), url: z.string()})`. */
  function ParseCompany(j: Json): (r: Option<Company>)
    ensures r.Some? <==> StringField(j, "title").Some? && StringField(j, "url").Some?
    ensures r.Some? ==> r.value == Company(StringField(j, "title").value, StringField(j, "url").value)
  {
    var title := StringField(j, "title");
    var url := StringField(j, "url");
    if title.Some? && url.Some? then Some(Company(title.value, url.value)) else None
  }

  /** `z.array(...)` of companies: every element must parse, and order is kept. */
  function ParseCompanies(items: seq<Json>): (r: Option<seq<Company>>)
    ensures r.Some? <==> forall i :: 0 <= i < |items| ==> ParseCompany(items[i]).Some?
    ensures r.Some? ==> (|r.value| == |items| &&
      forall i :: 0 <= i < |items| ==> r.value[i] == ParseCompany(items[i]).value)
  {
    if items == [] then Some([])
    else
      match (ParseCompany(items[0]), ParseCompanies(items[1..]))
      case (Some(c), Some(rest)) =>
        assert forall i :: 1 <= i < |items| ==> items[i] == items[1..][i - 1];
        Some([c] + rest)
      case _ =>
        assert ParseCompanies(items[1..]).None? ==>
          exists i :: 1 <= i < |items| && ParseCompany(items[i]).None? by {
          if ParseCompanies(items[1..]).None? {
            var i :| 0 <= i < |items[1..]| && ParseCompany(items[1..][i]).None?;
            assert items[i + 1] == items[1..][i];
          }
        }
        None
  }

  /** `apolloEnrichRequestSchema.safeParse`. */
  function ParseEnrichRequest(j: Json): (r: Option<EnrichRequest>)
    ensures r.Some? ==> ValidEnrichRequest(r.value)
    ensures r.Some? && Field(j, "limit").None? ==> r.value.limit == DefaultLimit
    ensures r.Some? && Field(j, "limit").Some? ==> Field(j, "limit") == Some(JNumber(r.value.limit))
    ensures (Field(j, "limit").Some? && Field(j, "limit").value.JNumber? &&
             !(1 <= Field(j, "limit").value.n <= 20)) ==> r.None?
    ensures r.Some? ==> (Field(j, "companies").Some? && Field(j, "companies").value.JArray? &&
             ParseCompanies(Field(j, "companies").value.items) == Some(r.value.companies))
    ensures r.Some? <==>
      (Field(j, "companies").Some? && Field(j, "companies").value.JArray? &&
       ParseCompanies(Field(j, "companies").value.items).Some?) &&
      (Field(j, "limit").None? || (Field(j, "limit").value.JNumber? && 1 <= Field(j, "limit").value.n <= 20)) &&
      (Field(j, "includePhones").None? || Field(j, "includePhones").value.JBool?)
    ensures r.Some? ==> (r.value.includePhones ==
      if Field(j, "includePhones").Some? then Some(Field(j, "includePhones").value.b) else None)
  {
    var limit :=
      match Field(j, "limit")
      case None => Some(DefaultLimit)
      case Some(JNumber(n)) => if 1 <= n <= 20 then Some(n) else None
      case Some(_) => None;
    var includePhones :=
      match Field(j, "includePhones")
      case None => Success(None)
      case Some(JBool(b)) => Success(Some(b))
      case Some(_) => Failure(());
    var companies :=
      match Field(j, "companies")
      case Some(JArray(items)) => ParseCompanies(items)
      case _ => None;
    if companies.Some? && limit.Some? && includePhones.Success?
    then Some(EnrichRequest(companies.value, limit.value, includePhones.value))
    else None
  }

  /** A body without `limit` or `includePhones` is accepted with the default limit and no phone choice. */
  lemma LimitDefaults(j: Json, companies: seq<Company>)
    requires Field(j, "companies").Some? && Field(j, "companies").value.JArray?
    requires ParseCompanies(Field(j, "companies").value.items) == Some(companies)
    requires Field(j, "limit").None? && Field(j, "includePhones").None?
    ensures ParseEnrichRequest(j) == Some(EnrichRequest(companies, DefaultLimit, None))
  {
  }

  /** A present `includePhones` that is not a boolean is refused. */
  lemma IncludePhonesMustBeBoolean(j: Json)
    requires Field(j, "includePhones").Some? && !Field(j, "includePhones").value.JBool?
    ensures ParseEnrichRequest(j).None?
  {
  }

  function EncodeCompany(c: Company): Json {
    JObject(map["title" := JString(c.title), "url" := JString(c.url)])
  }

  /** The request body the search form posts. */
  function EncodeEnrichRequest(r: EnrichRequest): Json {
    var fields := map[
      "companies" := JArray(seq(|r.companies|, i requires 0 <= i < |r.companies| => EncodeCompany(r.companies[i]))),
      "limit" := JNumber(r.limit)];
    JObject(if r.includePhones.Some? then fields["includePhones" := JBool(r.includePhones.value)] else fields)
  }

  /** Every valid request survives a trip through its JSON encoding. */
  lemma EnrichRequestRoundTrip(r: EnrichRequest)
    requires ValidEnrichRequest(r)
    ensures ParseEnrichRequest(EncodeEnrichRequest(r)) == Some(r)
  {
    var j := EncodeEnrichRequest(r);
    var items := seq(|r.companies|, i requires 0 <= i < |r.companies| => EncodeCompany(r.companies[i]));
    assert Field(j, "companies") == Some(JArray(items));
    forall i | 0 <= i < |items| ensures ParseCompany(items[i]) == Some(r.companies[i]) {
      assert StringField(items[i], "title") == Some(r.companies[i].title);
      assert StringField(items[i], "url") == Some(r.companies[i].url);
    }
    var parsed := ParseCompanies(items);
    assert parsed.Some?;
    assert parsed.value == r.companies;
    assert Field(j, "limit") == Some(JNumber(r.limit));
  }

  // ---------------------------------------------------------------------
  // exaSearchRequestSchema

  /** `exaSearchRequestSchema.safeParse`: the query must be 1 to 5000 characters. */
  function ParseSearchRequest(j: Json): (r: Option<string>)
    ensures r.Some? <==> StringField(j, "query").Some? && 1 <= |StringField(j, "query").value| <= 5000
    ensures r.Some? ==> r == StringField(j, "query")
  {
    match StringField(j, "query")
    case Some(q) => if 1 <= |q| <= 5000 then Some(q) else None
    case None => None
  }
}
