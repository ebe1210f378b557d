/** The concern (ticket) record of `models/Concern.js`: its enumerations, field
    bounds and defaults, the unique ticket id and the pre-validation hook that
    numbers a new ticket `BRT` + zero-padded (document count + 1). */
module ConcernModel {
  import opened Domain
  import opened Text

  datatype Status = Submitted | InReview | Assigned | InProgress | Resolved | Closed | Reopened

  datatype Severity = Low | Medium | High | Critical

  datatype Category =
    | Technical | Personal | Financial | Behavioral | Misconduct
    | Infrastructure | CourseContent | MentorRelated | OtherCategory

  datatype Campus = Kochi | Calicut | Trivandrum | OtherCampus

  const AllSeverities: seq<Severity> := [Low, Medium, High, Critical]
  const AllCategories: seq<Category> :=
    [Technical, Personal, Financial, Behavioral, Misconduct, Infrastructure, CourseContent, MentorRelated, OtherCategory]

  const DefaultStatus: Status := Submitted
  const DefaultSeverity: Severity := Medium

  const TitleMax: nat := 200
  const DescriptionMax: nat := 2000
  const FeedbackMax: nat := 1000
  const RatingMin: real := 1.0
  const RatingMax: real := 5.0

  const TicketPrefix: string := "BRT"
  const TicketDigits: nat := 6

  function StatusName(s: Status): string {
    match s
    case Submitted => "Submitted"
    case InReview => "In Review"
    case Assigned => "Assigned"
    case InProgress => "In Progress"
    case Resolved => "Resolved"
    case Closed => "Closed"
    case Reopened => "Reopened"
  }

  function SeverityName(s: Severity): string {
    match s
    case Low => "Low"
    case Medium => "Medium"
    case High => "High"
    case Critical => "Critical"
  }

  function CategoryName(c: Category): string {
    match c
    case Technical => "Technical"
    case Personal => "Personal"
    case Financial => "Financial"
    case Behavioral => "Behavioral"
    case Misconduct => "Misconduct"
    case Infrastructure => "Infrastructure"
    case CourseContent => "Course Content"
    case MentorRelated => "Mentor Related"
    case OtherCategory => "Other"
  }

  function CampusName(c: Campus): string {
    match c
    case Kochi => "Kochi"
    case Calicut => "Calicut"
    case Trivandrum => "Trivandrum"
    case OtherCampus => "Other"
  }

  /** The `enum` validator of the `status` path: a string is accepted exactly
      when it is the name of one of the seven statuses. The validator passes
      an unset status, and the path is not `required`. */
  function ParseStatus(s: string): (r: Option<Status>)
    ensures r.Some? ==> StatusName(r.value) == s
    ensures r.None? <==> forall st: Status :: StatusName(st) != s
  {
    if s == "Submitted" then Some(Submitted)
    else if s == "In Review" then Some(InReview)
    else if s == "Assigned" then Some(Assigned)
    else if s == "In Progress" then Some(InProgress)
    else if s == "Resolved" then Some(Resolved)
    else if s == "Closed" then Some(Closed)
    else if s == "Reopened" then Some(Reopened)
    else None
  }

  /** The `enum` validator of the `severity` path. */
  function ParseSeverity(s: string): (r: Option<Severity>)
    ensures r.Some? ==> SeverityName(r.value) == s
    ensures r.None? <==> forall v: Severity :: SeverityName(v) != s
  {
    if s == "Low" then Some(Low)
    else if s == "Medium" then Some(Medium)
    else if s == "High" then Some(High)
    else if s == "Critical" then Some(Critical)
    else None
  }

  /** The `enum` validator of the `category` path. */
  function ParseCategory(s: string): (r: Option<Category>)
    ensures r.Some? ==> CategoryName(r.value) == s
    ensures r.None? <==> forall v: Category :: CategoryName(v) != s
  {
    if s == "Technical" then Some(Technical)
    else if s == "Personal" then Some(Personal)
    else if s == "Financial" then Some(Financial)
    else if s == "Behavioral" then Some(Behavioral)
    else if s == "Misconduct" then Some(Misconduct)
    else if s == "Infrastructure" then Some(Infrastructure)
    else if s == "Course Content" then Some(CourseContent)
    else if s == "Mentor Related" then Some(MentorRelated)
    else if s == "Other" then Some(OtherCategory)
    else None
  }

  /** The `enum` validator of the `campus` path. */
  function ParseCampus(s: string): (r: Option<Campus>)
    ensures r.Some? ==> CampusName(r.value) == s
    ensures r.None? <==> forall v: Campus :: CampusName(v) != s
  {
    if s == "Kochi" then Some(Kochi)
    else if s == "Calicut" then Some(Calicut)
    else if s == "Trivandrum" then Some(Trivandrum)
    else if s == "Other" then Some(OtherCampus)
    else None
  }

  /** Every status survives a round trip through its name. */
  lemma StatusNameRoundTrip(st: Status)
    ensures ParseStatus(StatusName(st)) == Some(st)
  {
    match st
    case Submitted => case InReview => case Assigned => case InProgress =>
    case Resolved => case Closed => case Reopened =>
  }

  /** Every severity survives a round trip through its name. */
  lemma SeverityNameRoundTrip(sv: Severity)
    ensures ParseSeverity(SeverityName(sv)) == Some(sv)
  {
    match sv
    case Low => case Medium => case High => case Critical =>
  }

  /** Every category survives a round trip through its name. */
  lemma CategoryNameRoundTrip(cat: Category)
    ensures ParseCategory(CategoryName(cat)) == Some(cat)
  {
    match cat
    case Technical => case Personal => case Financial => case Behavioral =>
    case Misconduct => case Infrastructure => case CourseContent =>
    case MentorRelated => case OtherCategory =>
  }

  /** Every campus survives a round trip through its name. */
  lemma CampusNameRoundTrip(cp: Campus)
    ensures ParseCampus(CampusName(cp)) == Some(cp)
  {
    match cp
    case Kochi => case Calicut => case Trivandrum => case OtherCampus =>
  }

  /** One timeline entry; `status` is `None` when the entry was pushed without one. */
  datatype TimelineEntry = TimelineEntry(
    status: Option<Status>,
    updatedBy: Option<UserId>,
    comment: Option<string>,
    timestamp: nat)

  /** A stored concern, keyed in the store by its `_id`. `ticketId == ""` stands
      for a ticket id not yet assigned; `status`, `rating`, `feedback`,
      `assignedTo`, `resolvedAt`, `closedAt` and `campus` are `None` when the
      document has no value (null or unset) there. The `rating` path is a
      `Number`, so a rating need not be whole. */
  datatype Concern = Concern(
    student: UserId,
    ticketId: string,
    title: string,
    description: string,
    category: Category,
    severity: Severity,
    status: Option<Status>,
    assignedTo: Option<UserId>,
    attachments: seq<Attachment>,
    timeline: seq<TimelineEntry>,
    isAnonymous: bool,
    rating: Option<real>,
    feedback: Option<string>,
    resolvedAt: Option<nat>,
    closedAt: Option<nat>,
    campus: Option<Campus>,
    createdAt: nat)

  /** A required, trimmed string path with a `maxlength`: the `required` validator
      refuses the empty string. */
  predicate RequiredText(s: string, max: nat) {
    s != [] && |s| <= max
  }

  /** The schema validators that can fail once the enumerations are typed:
      required/maxlength on title and description, maxlength on feedback,
      min/max on rating. */
  predicate FieldsValid(c: Concern) {
    && RequiredText(c.title, TitleMax)
    && RequiredText(c.description, DescriptionMax)
    && (c.feedback.Some? ==> |c.feedback.value| <= FeedbackMax)
    && (c.rating.Some? ==> RatingMin <= c.rating.value <= RatingMax)
  }

  /** The `trim` option: string paths are stored trimmed. */
  predicate TrimmedFields(c: Concern) {
    && IsTrimmed(c.title)
    && IsTrimmed(c.description)
    && (c.feedback.Some? ==> IsTrimmed(c.feedback.value))
  }

  /** What holds of every concern the backend ever stores. */
  predicate WellFormed(c: Concern) {
    && FieldsValid(c)
    && TrimmedFields(c)
    && c.ticketId != ""
    && |c.timeline| >= 1
    && c.timeline[0].status == Some(Submitted)
    && c.resolvedAt.None?
    && c.closedAt.None?
  }

  /** The ticket id generated for a new concern when `count` concerns are stored:
      `BRT` followed by count + 1 left-padded with '0' to at least six digits. */
  function FormatTicketId(count: nat): (r: string)
    ensures |r| >= 3 + TicketDigits
    ensures r[..3] == TicketPrefix
  {
    TicketPrefix + PadStart(DecimalString(count + 1), TicketDigits, '0')
  }

  /** Reads the number back out of a ticket id: the prefix `BRT` and at least one
      decimal digit after it; anything else is not a ticket id. */
  function ParseTicketId(t: string): (r: Option<nat>)
    ensures r.Some? ==> |t| > 3 && t[..3] == TicketPrefix
  {
    if |t| > 3 && t[..3] == TicketPrefix && AllDigits(t[3..]) then Some(DecimalValue(t[3..])) else None
  }

  /** The generated id decodes back to count + 1, and it is exactly nine
      characters long precisely while count + 1 has at most six digits. */
  lemma TicketIdRoundTrip(count: nat)
    ensures ParseTicketId(FormatTicketId(count)) == Some(count + 1)
    ensures |FormatTicketId(count)| == 9 <==> count + 1 <= 999999
  {
    var d := DecimalString(count + 1);
    var t := FormatTicketId(count);
    assert t[3..] == PadStart(d, TicketDigits, '0');
    DecimalRoundTrip(count + 1);
    if |d| < TicketDigits {
      assert PadStart(d, TicketDigits, '0') == Repeat('0', TicketDigits - |d|) + d;
      LeadingZerosIgnored(TicketDigits - |d|, d);
    }
    DecimalLength(count + 1, TicketDigits);
    assert Pow10(TicketDigits) == 1000000;
  }

  /** Different document counts give different ticket ids. */
  lemma TicketIdInjective(a: nat, b: nat)
    ensures FormatTicketId(a) == FormatTicketId(b) <==> a == b
  {
    TicketIdRoundTrip(a);
    TicketIdRoundTrip(b);
  }

  /** The pre-validation hook: a concern without a ticket id gets one numbered
      after the current document count; an existing ticket id is kept. */
  function AssignTicketId(ticketId: string, count: nat): (r: string)
    ensures r != ""
    ensures ticketId != "" ==> r == ticketId
    ensures ticketId == "" ==> ParseTicketId(r) == Some(count + 1)
  {
    if ticketId == "" then
      TicketIdRoundTrip(count);
      FormatTicketId(count)
    else ticketId
  }

  /** No two stored concerns share a ticket id (the unique index). */
  predicate UniqueTicketIds(concerns: map<ConcernId, Concern>) {
    forall a, b :: a in concerns && b in concerns && a != b ==> concerns[a].ticketId != concerns[b].ticketId
  }

  /** Some concern other than `id` already holds ticket id `t`. */
  predicate TicketIdTaken(concerns: map<ConcernId, Concern>, id: ConcernId, t: string) {
    exists k :: k in concerns && k != id && concerns[k].ticketId == t
  }

  /** `save()` of concern `c` under key `id`: the pre-validation hook, then the
      schema validators, then the unique indexes (on `_id` for a new document,
      on `ticketId` always). Any failure stores nothing. */
  function SaveConcern(concerns: map<ConcernId, Concern>, id: ConcernId, c: Concern, isNew: bool)
    : (r: Result<map<ConcernId, Concern>>)
    ensures r.Failure? ==> r.code == Invalid
    ensures r.Success? <==>
      && !(isNew && id in concerns)
      && FieldsValid(c)
      && !TicketIdTaken(concerns, id, AssignTicketId(c.ticketId, |concerns|))
    ensures r.Success? ==>
      && r.value == concerns[id := c.(ticketId := AssignTicketId(c.ticketId, |concerns|))]
      && (UniqueTicketIds(concerns) ==> UniqueTicketIds(r.value))
  {
    var saved := c.(ticketId := AssignTicketId(c.ticketId, |concerns|));
    if isNew && id in concerns then Failure(Invalid)
    else if !FieldsValid(saved) then Failure(Invalid)
    else if TicketIdTaken(concerns, id, saved.ticketId) then Failure(Invalid)
    else Success(concerns[id := saved])
  }
}
