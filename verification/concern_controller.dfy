/** The concern lifecycle handlers of `controllers/concernController.js`: each is
    a sequence of guards (existence, ownership, status) followed by one record
    update through `save()`, and the status-changing ones emit a
    `status-update` event to the concern's room. E-mail notifications are sent
    best-effort and never fail a request, so they are not part of the outcome. */
module ConcernController {
  import opened Domain
  import opened Text
  import opened ConcernModel
  import opened Users
  import opened Realtime
  import opened Backend
  import opened Ordering

  // ---------------------------------------------------------------- create

  /** The multipart form of a new concern. `severity` and `isAnonymous` are
      `None` when the form leaves them out; `campus` is `""` then. */
  datatype NewConcernForm = NewConcernForm(
    title: string,
    description: string,
    category: string,
    severity: Option<string>,
    isAnonymous: Option<bool>,
    campus: string)

  /** `campus || req.user.campus`. */
  function ChosenCampus(given: string, fallback: string): string {
    if given != "" then given else fallback
  }

  /** The campus stored for a chosen campus name: none for an empty name,
      otherwise the `enum` validator decides. */
  function ResolveCampus(name: string): (r: Result<Option<Campus>>)
    ensures r.Failure? ==> r.code == Invalid
    ensures r.Success? <==> name == "" || ParseCampus(name).Some?
    ensures r.Success? ==> (r.value.None? <==> name == "")
    ensures r.Success? && r.value.Some? ==> CampusName(r.value.value) == name
  {
    if name == "" then Success(None)
    else match ParseCampus(name)
      case Some(c) => Success(Some(c))
      case None => Failure(Invalid)
  }

  /** When the datastore accepts a creation: the fresh `_id` is unused, the
      trimmed title and description are present and within bounds, category
      and (if given) severity and the chosen campus name their enumerations,
      and the ticket id numbered after the current count is not in use. */
  predicate CreateAccepted(s: Store, actor: User, form: NewConcernForm, newId: ConcernId) {
    && newId !in s.concerns
    && RequiredText(Trim(form.title), TitleMax)
    && RequiredText(Trim(form.description), DescriptionMax)
    && EnumsAccepted(actor, form)
    && !TicketIdTaken(s.concerns, newId, FormatTicketId(|s.concerns|))
  }

  /** The enumeration checks of a creation: the category and (if given) the
      severity name their enumerations, and so does the chosen campus unless
      it is empty. */
  predicate EnumsAccepted(actor: User, form: NewConcernForm) {
    && ParseCategory(form.category).Some?
    && (form.severity.Some? ==> ParseSeverity(form.severity.value).Some?)
    && (var campus := ChosenCampus(form.campus, actor.campus);
        campus == "" || ParseCampus(campus).Some?)
  }

  /** The fields of a new concern other than its ticket id. */
  predicate Drafted(c: Concern, actor: User, form: NewConcernForm, files: seq<Attachment>, now: nat) {
    && c.student == actor.id
    && c.status == Some(Submitted)
    && c.timeline == [TimelineEntry(Some(Submitted), None, None, now)]
    && c.title == Trim(form.title)
    && c.description == Trim(form.description)
    && CategoryName(c.category) == form.category
    && (form.severity.None? ==> c.severity == Medium)
    && (form.severity.Some? ==> SeverityName(c.severity) == form.severity.value)
    && (var campus := ChosenCampus(form.campus, actor.campus);
        && (c.campus.None? <==> campus == "")
        && (c.campus.Some? ==> CampusName(c.campus.value) == campus))
    && c.isAnonymous == (form.isAnonymous == Some(true))
    && c.assignedTo.None?
    && c.rating.None?
    && c.feedback.None?
    && c.resolvedAt.None?
    && c.closedAt.None?
    && c.attachments == files
    && c.createdAt == now
  }

  /** The record a successful creation stores. */
  predicate NewlyCreated(c: Concern, actor: User, form: NewConcernForm, files: seq<Attachment>, count: nat, now: nat) {
    c.ticketId == FormatTicketId(count) && Drafted(c, actor, form, files, now)
  }

  /** The document `Concern.create` is handed: enumerations resolved, defaults
      filled in (severity `Medium`, status `Submitted`, not anonymous unless
      the form says so, campus falling back to the actor's) and no ticket id yet. */
  function DraftConcern(actor: User, form: NewConcernForm, files: seq<Attachment>, now: nat): (r: Result<Concern>)
    ensures r.Failure? ==> r.code == Invalid
    ensures r.Success? <==> EnumsAccepted(actor, form)
    ensures r.Success? ==> r.value.ticketId == "" && Drafted(r.value, actor, form, files, now)
    ensures r.Success? ==>
      (FieldsValid(r.value) <==> RequiredText(Trim(form.title), TitleMax) && RequiredText(Trim(form.description), DescriptionMax))
  {
    var category := ParseCategory(form.category);
    var severity := if form.severity.None? then Some(DefaultSeverity) else ParseSeverity(form.severity.value);
    var campus := ResolveCampus(ChosenCampus(form.campus, actor.campus));
    if category.None? || severity.None? || campus.Failure? then Failure(Invalid)
    else
      Success(Concern(
        actor.id, "", Trim(form.title), Trim(form.description), category.value, severity.value,
        Some(DefaultStatus), None, files, [TimelineEntry(Some(Submitted), None, None, now)],
        form.isAnonymous == Some(true), None, None, None, None, campus.value, now))
  }

  /** `createConcern`: the actor becomes the owner, the status starts at
      `Submitted` with a one-entry timeline, and the ticket id is numbered
      after the number of concerns stored. A ticket id that is already in use
      (possible once a concern has been deleted) makes the save fail. */
  function CreateConcern(s: Store, actor: User, form: NewConcernForm, files: seq<Attachment>,
                         newId: ConcernId, now: nat): (r: Outcome)
    ensures r.emits == []
    ensures r.code == Ok || r.code == Invalid
    ensures r.code == Ok <==> CreateAccepted(s, actor, form, newId)
    ensures r.code != Ok ==> r.store == s
    ensures r.store.chats == s.chats && r.store.users == s.users && r.store.bus == s.bus
    ensures r.code == Ok ==>
      && newId !in s.concerns
      && newId in r.store.concerns
      && r.store.concerns == s.concerns[newId := r.store.concerns[newId]]
      && NewlyCreated(r.store.concerns[newId], actor, form, files, |s.concerns|, now)
  {
    match DraftConcern(actor, form, files, now)
    case Failure(code) => Refuse(s, code)
    case Success(draft) =>
      assert FieldsValid(draft.(ticketId := FormatTicketId(|s.concerns|))) <==> FieldsValid(draft);
      match SaveConcern(s.concerns, newId, draft, true)
      case Failure(code) => Refuse(s, code)
      case Success(m) => Outcome(Ok, s.(concerns := m), [])
  }

  /** A successful creation keeps every stored concern well formed and the
      ticket ids unique. */
  lemma CreatePreservesInv(s: Store, actor: User, form: NewConcernForm, files: seq<Attachment>,
                           newId: ConcernId, now: nat)
    requires StoreInv(s)
    ensures var r := CreateConcern(s, actor, form, files, newId, now);
            r.code == Ok ==> StoreInv(r.store)
  {
    var r := CreateConcern(s, actor, form, files, newId, now);
    if r.code == Ok {
      var c := r.store.concerns[newId];
      assert WellFormed(c);
      forall k | k in r.store.concerns
        ensures WellFormed(r.store.concerns[k])
      {
        if k != newId {
          assert r.store.concerns[k] == s.concerns[k];
        }
      }
    }
  }

  // ---------------------------------------------------------------- status

  /** `updateConcernStatus`: any status name is recorded as given, from any
      current status and by any actor that reaches the handler (no transition
      graph, no assignment check). A body without a status unsets the status,
      which the schema allows. Exactly one timeline entry is appended, even
      when the status does not change, and one `status-update` goes to the
      concern's room. A name outside the enumeration fails the save. */
  function UpdateConcernStatus(s: Store, actor: User, id: ConcernId, status: Option<string>, comment: string,
                               now: nat): (r: Outcome)
    ensures r.code == Ok || r.code == NotFound || r.code == Invalid
    ensures r.code == NotFound <==> id !in s.concerns
    ensures r.code != Ok ==> r.store == s && r.emits == []
    ensures r.code == Ok ==>
      && id in s.concerns && id in r.store.concerns
      && var before := s.concerns[id];
      && var after := r.store.concerns[id];
      && r.store.concerns == s.concerns[id := after]
      && (after.status.None? <==> status.None?)
      && (after.status.Some? ==> StatusName(after.status.value) == status.value)
      && after.timeline == before.timeline + [TimelineEntry(after.status, Some(actor.id), Some(comment), now)]
      && after == before.(status := after.status, timeline := after.timeline, ticketId := after.ticketId)
      && (before.ticketId != "" ==> after.ticketId == before.ticketId)
      && r.store.chats == s.chats && r.store.users == s.users && r.store.bus == s.bus
      && r.emits == [Emit(ConcernRoom(id), StatusChanged(after.status, actor.name, comment, now))]
  {
    if id !in s.concerns then Refuse(s, NotFound)
    else
      var c := s.concerns[id];
      var parsed := if status.None? then Some(None) else
                      match ParseStatus(status.value) case None => None case Some(st) => Some(Some(st));
      match parsed
      case None => Refuse(s, Invalid)
      case Some(st) =>
        var updated := c.(status := st, timeline := c.timeline + [TimelineEntry(st, Some(actor.id), Some(comment), now)]);
        match SaveConcern(s.concerns, id, updated, false)
        case Failure(code) => Refuse(s, code)
        case Success(m) =>
          Outcome(Ok, s.(concerns := m), [EmitStatusUpdate(id, StatusChanged(st, actor.name, comment, now))])
  }

  /** On a store that satisfies the invariant the save cannot fail for any
      other reason, so an existing concern takes exactly the seven status
      names or no status at all, and the invariant survives the update. */
  lemma StatusUpdateAccepted(s: Store, actor: User, id: ConcernId, status: Option<string>, comment: string, now: nat)
    requires StoreInv(s) && id in s.concerns
    ensures var r := UpdateConcernStatus(s, actor, id, status, comment, now);
            && (r.code == Ok <==> status.None? || ParseStatus(status.value).Some?)
            && (r.code == Ok ==> StoreInv(r.store))
  {
    var r := UpdateConcernStatus(s, actor, id, status, comment, now);
    var c := s.concerns[id];
    if status.None? || ParseStatus(status.value).Some? {
      assert !TicketIdTaken(s.concerns, id, c.ticketId);
      assert r.code == Ok;
      UpdatePreservesInv(s, id, r.store.concerns[id]);
    }
  }

  // ---------------------------------------------------------------- assign

  /** The comment recorded when a concern is assigned. */
  function AssignmentComment(name: string): string {
    "Assigned to " + name
  }

  /** `assignConcern`: the concern is looked up first, then the assignee (any
      existing user, whatever their role); either missing gives `NotFound`.
      On success the concern is assigned, its status forced to `Assigned`,
      one timeline entry naming the assignee appended, and one
      `status-update` emitted to its room. */
  function AssignConcern(s: Store, actor: User, id: ConcernId, mentorId: UserId, now: nat): (r: Outcome)
    ensures r.code == Ok || r.code == NotFound || r.code == Invalid
    ensures r.code == NotFound <==> id !in s.concerns || mentorId !in s.users
    ensures r.code != Ok ==> r.store == s && r.emits == []
    ensures r.code == Ok ==>
      && id in s.concerns && id in r.store.concerns && mentorId in s.users
      && var before := s.concerns[id];
      && var after := r.store.concerns[id];
      && var mentor := s.users[mentorId];
      && r.store.concerns == s.concerns[id := after]
      && after.assignedTo == Some(mentorId)
      && after.status == Some(Assigned)
      && after.timeline == before.timeline + [TimelineEntry(Some(Assigned), Some(actor.id), Some(AssignmentComment(mentor.name)), now)]
      && after == before.(assignedTo := after.assignedTo, status := Some(Assigned), timeline := after.timeline, ticketId := after.ticketId)
      && (before.ticketId != "" ==> after.ticketId == before.ticketId)
      && r.store.chats == s.chats && r.store.users == s.users && r.store.bus == s.bus
      && r.emits == [Emit(ConcernRoom(id), AssignedTo(mentor.name, now))]
  {
    if id !in s.concerns then Refuse(s, NotFound)
    else if mentorId !in s.users then Refuse(s, NotFound)
    else
      var c := s.concerns[id];
      var mentor := s.users[mentorId];
      var updated := c.(
        assignedTo := Some(mentorId),
        status := Some(Assigned),
        timeline := c.timeline + [TimelineEntry(Some(Assigned), Some(actor.id), Some(AssignmentComment(mentor.name)), now)]);
      match SaveConcern(s.concerns, id, updated, false)
      case Failure(code) => Refuse(s, code)
      case Success(m) =>
        Outcome(Ok, s.(concerns := m), [EmitStatusUpdate(id, AssignedTo(mentor.name, now))])
  }

  /** On a store that satisfies the invariant an assignment succeeds exactly
      when both the concern and the assignee exist, and keeps the invariant. */
  lemma AssignAccepted(s: Store, actor: User, id: ConcernId, mentorId: UserId, now: nat)
    requires StoreInv(s)
    ensures var r := AssignConcern(s, actor, id, mentorId, now);
            && (r.code == Ok <==> id in s.concerns && mentorId in s.users)
            && (r.code == Ok ==> StoreInv(r.store))
  {
    var r := AssignConcern(s, actor, id, mentorId, now);
    if id in s.concerns && mentorId in s.users {
      var c := s.concerns[id];
      assert !TicketIdTaken(s.concerns, id, c.ticketId);
      assert r.code == Ok;
      UpdatePreservesInv(s, id, r.store.concerns[id]);
    }
  }

  // ---------------------------------------------------------------- rate

  /** The statuses in which a concern can be rated; a concern without a
      status cannot be. */
  predicate Rateable(st: Option<Status>) {
    st == Some(Resolved) || st == Some(Closed)
  }

  /** `rateConcern`: `NotFound`, then `Forbidden` for anyone but the owner, then
      `BadRequest` unless the concern is resolved or closed. On success the
      rating (any number, or none) and the trimmed feedback (empty when none
      is given) are stored;
      the status and timeline stay as they were and nothing is emitted. A
      rating outside 1..5 or an over-long feedback fails the save. */
  function RateConcern(s: Store, actor: User, id: ConcernId, rating: Option<real>, feedback: string): (r: Outcome)
    ensures r.emits == []
    ensures r.code == Ok || r.code == NotFound || r.code == Forbidden || r.code == BadRequest || r.code == Invalid
    ensures r.code != Ok ==> r.store == s
    ensures r.code == NotFound <==> id !in s.concerns
    ensures r.code == Forbidden <==> id in s.concerns && s.concerns[id].student != actor.id
    ensures r.code == BadRequest <==>
      id in s.concerns && s.concerns[id].student == actor.id && !Rateable(s.concerns[id].status)
    ensures r.code == Ok ==>
      && id in s.concerns && id in r.store.concerns
      && var before := s.concerns[id];
      && var after := r.store.concerns[id];
      && r.store.concerns == s.concerns[id := after]
      && before.student == actor.id
      && after.rating == rating
      && after.feedback == Some(Trim(feedback))
      && after.status == before.status
      && after.timeline == before.timeline
      && after == before.(rating := rating, feedback := Some(Trim(feedback)), ticketId := after.ticketId)
      && r.store.chats == s.chats && r.store.users == s.users && r.store.bus == s.bus
  {
    if id !in s.concerns then Refuse(s, NotFound)
    else
      var c := s.concerns[id];
      if c.student != actor.id then Refuse(s, Forbidden)
      else if !Rateable(c.status) then Refuse(s, BadRequest)
      else
        var updated := c.(rating := rating, feedback := Some(Trim(feedback)));
        match SaveConcern(s.concerns, id, updated, false)
        case Failure(code) => Refuse(s, code)
        case Success(m) => Outcome(Ok, s.(concerns := m), [])
  }

  /** On a store that satisfies the invariant, once the owner and status
      guards pass, only the rating range and the feedback length can refuse
      a rating, and a stored rating keeps the invariant. */
  lemma RateAccepted(s: Store, actor: User, id: ConcernId, rating: Option<real>, feedback: string)
    requires StoreInv(s) && id in s.concerns
    requires s.concerns[id].student == actor.id && Rateable(s.concerns[id].status)
    ensures var r := RateConcern(s, actor, id, rating, feedback);
            && (r.code == Ok <==>
                 (rating.Some? ==> RatingMin <= rating.value <= RatingMax) && |Trim(feedback)| <= FeedbackMax)
            && (r.code == Ok ==> StoreInv(r.store))
  {
    var r := RateConcern(s, actor, id, rating, feedback);
    var c := s.concerns[id];
    assert !TicketIdTaken(s.concerns, id, c.ticketId);
    if r.code == Ok {
      UpdatePreservesInv(s, id, r.store.concerns[id]);
    }
  }

  /** Replacing a stored concern by a well-formed one with a fresh-enough
      ticket id keeps the store invariant. */
  lemma UpdatePreservesInv(s: Store, id: ConcernId, after: Concern)
    requires StoreInv(s) && id in s.concerns
    requires WellFormed(after)
    requires !TicketIdTaken(s.concerns, id, after.ticketId)
    ensures StoreInv(s.(concerns := s.concerns[id := after]))
  {
  }

  // ---------------------------------------------------------------- delete

  /** `deleteConcern`: removes exactly that concern. Its chat messages stay. */
  function DeleteConcern(s: Store, id: ConcernId): (r: Outcome)
    ensures r.emits == []
    ensures r.code == Ok || r.code == NotFound
    ensures r.code == NotFound <==> id !in s.concerns
    ensures r.code == NotFound ==> r.store == s
    ensures r.code == Ok ==>
      && id !in r.store.concerns
      && (forall k :: k != id ==> (k in r.store.concerns <==> k in s.concerns))
      && (forall k :: k in r.store.concerns ==> r.store.concerns[k] == s.concerns[k])
      && r.store.chats == s.chats && r.store.users == s.users && r.store.bus == s.bus
    ensures StoreInv(s) ==> StoreInv(r.store)
  {
    if id !in s.concerns then Refuse(s, NotFound)
    else Outcome(Ok, s.(concerns := s.concerns - {id}), [])
  }

  // ---------------------------------------------------------------- read one

  /** `getConcernById`: `NotFound` for a missing id; a student who does not own
      the concern is refused, every other role reads any concern. The owner
      check reads the populated owner record, so for a student actor a concern
      whose owner no longer exists makes the handler throw. */
  function GetConcernById(s: Store, actor: User, id: ConcernId): (r: Result<Concern>)
    ensures r.Success? ==> id in s.concerns && r.value == s.concerns[id]
    ensures r.Failure? ==> r.code == NotFound || r.code == Forbidden || r.code == Invalid
    ensures r.Failure? && r.code == NotFound <==> id !in s.concerns
    ensures r.Failure? && r.code == Forbidden ==> actor.role == Student && s.concerns[id].student != actor.id
    ensures r.Failure? && r.code == Invalid ==> actor.role == Student && s.concerns[id].student !in s.users
    ensures (id in s.concerns && actor.role == Student && s.concerns[id].student in s.users &&
             s.concerns[id].student != actor.id) ==> r == Failure(Forbidden)
    ensures id in s.concerns && actor.role != Student ==> r == Success(s.concerns[id])
    ensures id in s.concerns && s.concerns[id].student == actor.id && actor.id in s.users ==> r == Success(s.concerns[id])
  {
    if id !in s.concerns then Failure(NotFound)
    else
      var c := s.concerns[id];
      if actor.role == Student && c.student !in s.users then Failure(Invalid)
      else if actor.role == Student && c.student != actor.id then Failure(Forbidden)
      else Success(c)
  }

  // ---------------------------------------------------------------- list

  /** The query parameters of a listing; `""` means the parameter is absent. */
  datatype ConcernQuery = ConcernQuery(status: string, category: string, severity: string, campus: string, search: string)

  /** One clause of the datastore query the handler builds. */
  datatype Condition =
    | StudentIs(user: UserId)
    | AssignedToIs(user: UserId)
    | StatusIs(name: string)
    | CategoryIs(name: string)
    | SeverityIs(name: string)
    | CampusIs(name: string)
    | TitleOrTicketContains(pattern: string)

  predicate Satisfies(c: Concern, cond: Condition) {
    match cond
    case StudentIs(u) => c.student == u
    case AssignedToIs(u) => c.assignedTo == Some(u)
    case StatusIs(n) => c.status.Some? && StatusName(c.status.value) == n
    case CategoryIs(n) => CategoryName(c.category) == n
    case SeverityIs(n) => SeverityName(c.severity) == n
    case CampusIs(n) => c.campus.Some? && CampusName(c.campus.value) == n
    case TitleOrTicketContains(p) => ContainsIgnoreCase(c.title, p) || ContainsIgnoreCase(c.ticketId, p)
  }

  predicate SatisfiesAll(c: Concern, conds: seq<Condition>) {
    forall i :: 0 <= i < |conds| ==> Satisfies(c, conds[i])
  }

  /** Which concerns a role sees before any filter: a student their own, a
      mentor those assigned to them, admins and superadmins all of them. */
  predicate VisibleTo(actor: User, c: Concern) {
    match actor.role
    case Student => c.student == actor.id
    case Mentor => c.assignedTo == Some(actor.id)
    case Admin => true
    case SuperAdmin => true
  }

  /** The query filters, each applied only when present. */
  predicate MatchesQuery(c: Concern, q: ConcernQuery) {
    && (q.status != "" ==> c.status.Some? && StatusName(c.status.value) == q.status)
    && (q.category != "" ==> CategoryName(c.category) == q.category)
    && (q.severity != "" ==> SeverityName(c.severity) == q.severity)
    && (q.campus != "" ==> c.campus.Some? && CampusName(c.campus.value) == q.campus)
    && (q.search != "" ==> ContainsIgnoreCase(c.title, q.search) || ContainsIgnoreCase(c.ticketId, q.search))
  }

  /** The role clause of the query: a student sees their own concerns, a
      mentor those assigned to them, admins and superadmins are not filtered. */
  function RoleClauses(actor: User): seq<Condition> {
    match actor.role
    case Student => [StudentIs(actor.id)]
    case Mentor => [AssignedToIs(actor.id)]
    case _ => []
  }

  /** A clause that is added only when its parameter is present. */
  function IfPresent(param: string, cond: Condition): seq<Condition> {
    if param != "" then [cond] else []
  }

  /** One clause per present filter, in the order the handler adds them. */
  function FilterClauses(q: ConcernQuery): seq<Condition> {
    IfPresent(q.status, StatusIs(q.status))
      + IfPresent(q.category, CategoryIs(q.category))
      + IfPresent(q.severity, SeverityIs(q.severity))
      + IfPresent(q.campus, CampusIs(q.campus))
      + IfPresent(q.search, TitleOrTicketContains(q.search))
  }

  /** The query object of `getAllConcerns`. */
  function BuildQuery(actor: User, q: ConcernQuery): seq<Condition> {
    RoleClauses(actor) + FilterClauses(q)
  }

  /** A concern matches the built query exactly when its role lets the actor
      see it and every present filter holds: the clauses are conjunctive. */
  lemma QueryMeaning(actor: User, q: ConcernQuery, c: Concern)
    ensures SatisfiesAll(c, BuildQuery(actor, q)) <==> VisibleTo(actor, c) && MatchesQuery(c, q)
  {
    AllOfConcat(c, RoleClauses(actor), FilterClauses(q));
    RoleMeaning(actor, c);
    FilterMeaning(q, c);
  }

  /** The role clause admits exactly the concerns the role may see. */
  lemma RoleMeaning(actor: User, c: Concern)
    ensures SatisfiesAll(c, RoleClauses(actor)) <==> VisibleTo(actor, c)
  {
    match actor.role
    case Student => assert RoleClauses(actor)[0] == StudentIs(actor.id);
    case Mentor => assert RoleClauses(actor)[0] == AssignedToIs(actor.id);
    case Admin =>
    case SuperAdmin =>
  }

  /** The filter clauses admit exactly the concerns every present filter accepts. */
  lemma FilterMeaning(q: ConcernQuery, c: Concern)
    ensures SatisfiesAll(c, FilterClauses(q)) <==> MatchesQuery(c, q)
  {
    var f1 := IfPresent(q.status, StatusIs(q.status));
    var f2 := IfPresent(q.category, CategoryIs(q.category));
    var f3 := IfPresent(q.severity, SeverityIs(q.severity));
    var f4 := IfPresent(q.campus, CampusIs(q.campus));
    var f5 := IfPresent(q.search, TitleOrTicketContains(q.search));
    AllOfConcat(c, f1 + f2 + f3 + f4, f5);
    AllOfConcat(c, f1 + f2 + f3, f4);
    AllOfConcat(c, f1 + f2, f3);
    AllOfConcat(c, f1, f2);
    IfPresentMeaning(c, q.status, StatusIs(q.status));
    IfPresentMeaning(c, q.category, CategoryIs(q.category));
    IfPresentMeaning(c, q.severity, SeverityIs(q.severity));
    IfPresentMeaning(c, q.campus, CampusIs(q.campus));
    IfPresentMeaning(c, q.search, TitleOrTicketContains(q.search));
  }

  lemma IfPresentMeaning(c: Concern, param: string, cond: Condition)
    ensures SatisfiesAll(c, IfPresent(param, cond)) <==> (param != "" ==> Satisfies(c, cond))
  {
    if param != "" {
      assert IfPresent(param, cond)[0] == cond;
    }
  }

  /** A conjunction of clause lists is satisfied exactly when both parts are. */
  lemma AllOfConcat(c: Concern, a: seq<Condition>, b: seq<Condition>)
    ensures SatisfiesAll(c, a + b) <==> SatisfiesAll(c, a) && SatisfiesAll(c, b)
  {
    if SatisfiesAll(c, a) && SatisfiesAll(c, b) {
      forall i | 0 <= i < |a + b|
        ensures Satisfies(c, (a + b)[i])
      {
        if i >= |a| {
          assert (a + b)[i] == b[i - |a|];
        }
      }
    }
    if SatisfiesAll(c, a + b) {
      forall i | 0 <= i < |a|
        ensures Satisfies(c, a[i])
      {
        assert (a + b)[i] == a[i];
      }
      forall i | 0 <= i < |b|
        ensures Satisfies(c, b[i])
      {
        assert (a + b)[|a| + i] == b[i];
      }
    }
  }

  /** Every id is stored, and creation times do not increase along the list. */
  predicate NewestFirst(m: map<ConcernId, Concern>, ids: seq<ConcernId>) {
    && (forall i :: 0 <= i < |ids| ==> ids[i] in m)
    && (forall i, j :: 0 <= i < j < |ids| ==> m[ids[i]].createdAt >= m[ids[j]].createdAt)
  }

  /** The creation time of every stored concern. */
  function CreationTimes(m: map<ConcernId, Concern>): (t: map<ConcernId, nat>)
    ensures t.Keys == m.Keys
    ensures forall k :: k in t ==> t[k] == m[k].createdAt
  {
    map k | k in m :: m[k].createdAt
  }

  /** The concerns a listing returns. */
  predicate Listed(s: Store, actor: User, q: ConcernQuery, k: ConcernId) {
    k in s.concerns && VisibleTo(actor, s.concerns[k]) && MatchesQuery(s.concerns[k], q)
  }

  /** `getAllConcerns`: the ids of exactly the concerns the actor's role lets
      them see that pass every present filter, each once, newest first. */
  method GetAllConcerns(s: Store, actor: User, q: ConcernQuery) returns (ids: seq<ConcernId>)
    ensures forall k :: k in ids <==> Listed(s, actor, q, k)
    ensures Distinct(ids)
    ensures NewestFirst(s.concerns, ids)
  {
    var query := BuildQuery(actor, q);
    var times := CreationTimes(s.concerns);
    var todo := s.concerns.Keys;
    ids := [];
    while todo != {}
      invariant todo <= s.concerns.Keys
      invariant forall k :: k in ids <==> Listed(s, actor, q, k) && k !in todo
      invariant Distinct(ids)
      invariant Descending(times, ids)
      decreases |todo|
    {
      var k :| k in todo;
      todo := todo - {k};
      QueryMeaning(actor, q, s.concerns[k]);
      if SatisfiesAll(s.concerns[k], query) {
        InsertKeepsDistinct(times, k, ids);
        InsertMembers(times, k, ids);
        ids := InsertDescending(times, k, ids);
      }
    }
    assert forall i :: 0 <= i < |ids| ==> times[ids[i]] == s.concerns[ids[i]].createdAt;
  }

  /** A listing without filters. */
  const NoFilters: ConcernQuery := ConcernQuery("", "", "", "", "")

  /** Lookup by id and the unfiltered listing agree for a student: a student
      whose own record exists reads by id exactly the concerns the listing
      shows them. Staff read by id every concern, the listed ones included. */
  lemma ReadByIdMatchesListing(s: Store, actor: User, id: ConcernId)
    requires id in s.concerns
    ensures actor.role == Student && actor.id in s.users ==>
      (GetConcernById(s, actor, id).Success? <==> Listed(s, actor, NoFilters, id))
    ensures actor.role != Student ==> GetConcernById(s, actor, id).Success?
    ensures Listed(s, actor, NoFilters, id) && actor.id in s.users ==>
      GetConcernById(s, actor, id) == Success(s.concerns[id])
  {
  }

  // ---------------------------------------------------------------- stats

  /** The statuses counted as pending. */
  const PendingStatuses: set<Status> := {Submitted, InReview, Assigned, InProgress}

  /** The keys of the concerns whose status is one of `sts`; a concern without
      a status matches no status query. */
  function WithStatus(m: map<ConcernId, Concern>, sts: set<Status>): set<ConcernId> {
    set k | k in m && m[k].status.Some? && m[k].status.value in sts
  }

  /** The keys of the concerns that have no status. */
  function WithoutStatus(m: map<ConcernId, Concern>): set<ConcernId> {
    set k | k in m && m[k].status.None?
  }

  /** The keys of the concerns with status `st`. */
  function InStatus(m: map<ConcernId, Concern>, st: Status): set<ConcernId> {
    set k | k in m && m[k].status == Some(st)
  }

  /** The keys of the concerns in category `cat`. */
  function InCategory(m: map<ConcernId, Concern>, cat: Category): set<ConcernId> {
    set k | k in m && m[k].category == cat
  }

  /** The keys of the concerns of severity `sev`. */
  function OfSeverity(m: map<ConcernId, Concern>, sev: Severity): set<ConcernId> {
    set k | k in m && m[k].severity == sev
  }

  /** The keys of the concerns `tag` puts under `l`. */
  function Labelled<L(==)>(m: map<ConcernId, Concern>, tag: Concern -> L, l: L): set<ConcernId> {
    set k | k in m && tag(m[k]) == l
  }

  /** A `$group` stage: the count of every tag that occurs at least once. */
  function Histogram<L(==)>(m: map<ConcernId, Concern>, tag: Concern -> L, ls: seq<L>): map<L, nat> {
    map l | l in ls && |Labelled(m, tag, l)| > 0 :: |Labelled(m, tag, l)|
  }

  /** The sum of a histogram's counts over the labels `ls`, absent ones counting 0. */
  function HistogramSum<L(==)>(h: map<L, nat>, ls: seq<L>): nat {
    if ls == [] then 0 else (if ls[0] in h then h[ls[0]] else 0) + HistogramSum(h, ls[1..])
  }

  /** Summing the histogram over distinct labels counts every concern whose
      tag is among them exactly once. */
  lemma {:induction false} HistogramCounts<L>(m: map<ConcernId, Concern>, tag: Concern -> L, ls: seq<L>, all: seq<L>)
    requires Distinct(ls)
    requires forall l :: l in ls ==> l in all
    ensures HistogramSum(Histogram(m, tag, all), ls) == |set k | k in m && tag(m[k]) in ls|
  {
    if ls != [] {
      HistogramCounts(m, tag, ls[1..], all);
      var a := Labelled(m, tag, ls[0]);
      var b := set k | k in m && tag(m[k]) in ls[1..];
      var whole := set k | k in m && tag(m[k]) in ls;
      assert whole == a + b;
      assert a !! b;
      assert |whole| == |a| + |b|;
    }
  }

  /** The counts `getConcernStats` reports. */
  datatype Stats = Stats(
    total: nat,
    pending: nat,
    resolved: nat,
    closed: nat,
    byCategory: map<Category, nat>,
    bySeverity: map<Severity, nat>)

  function CategoryOf(c: Concern): Category { c.category }
  function SeverityOf(c: Concern): Severity { c.severity }

  /** The `$group` by category: an entry for exactly the categories some
      concern has, holding the number of concerns in it; the counts add up to
      the number of concerns. */
  function CategoryHistogram(m: map<ConcernId, Concern>): (h: map<Category, nat>)
    ensures forall cat :: cat in h <==> InCategory(m, cat) != {}
    ensures forall cat :: cat in h ==> h[cat] == |InCategory(m, cat)|
    ensures HistogramSum(h, AllCategories) == |m|
  {
    CategoryHistogramTotal(m);
    CategoryHistogramEntries(m);
    Histogram(m, CategoryOf, AllCategories)
  }

  /** The `$group` by severity: an entry for exactly the severities some
      concern has, holding the number of concerns with it; the counts add up
      to the number of concerns. */
  function SeverityHistogram(m: map<ConcernId, Concern>): (h: map<Severity, nat>)
    ensures forall sev :: sev in h <==> OfSeverity(m, sev) != {}
    ensures forall sev :: sev in h ==> h[sev] == |OfSeverity(m, sev)|
    ensures HistogramSum(h, AllSeverities) == |m|
  {
    SeverityHistogramTotal(m);
    SeverityHistogramEntries(m);
    Histogram(m, SeverityOf, AllSeverities)
  }

  /** `getConcernStats`: the four open statuses count as pending, and the
      resolved and closed counts are those of their status; together they fall
      short of the total by exactly the reopened concerns and those without a
      status. Each histogram has an entry for exactly the labels that occur,
      holding the number of concerns with that label, so its counts add up to
      the total (`CategoryHistogram`, `SeverityHistogram`). */
  function GetConcernStats(s: Store): (r: Stats)
    ensures r.total == |s.concerns|
    ensures r.pending == |WithStatus(s.concerns, PendingStatuses)|
    ensures r.resolved == |InStatus(s.concerns, Resolved)|
    ensures r.closed == |InStatus(s.concerns, Closed)|
    ensures r.pending + r.resolved + r.closed
            + |InStatus(s.concerns, Reopened)| + |WithoutStatus(s.concerns)| == r.total
    ensures forall cat :: cat in r.byCategory <==> InCategory(s.concerns, cat) != {}
    ensures forall cat :: cat in r.byCategory ==> r.byCategory[cat] == |InCategory(s.concerns, cat)|
    ensures forall sev :: sev in r.bySeverity <==> OfSeverity(s.concerns, sev) != {}
    ensures forall sev :: sev in r.bySeverity ==> r.bySeverity[sev] == |OfSeverity(s.concerns, sev)|
  {
    var m := s.concerns;
    StatusBuckets(m);
    Stats(|m|, |WithStatus(m, PendingStatuses)|, |InStatus(m, Resolved)|, |InStatus(m, Closed)|,
          CategoryHistogram(m), SeverityHistogram(m))
  }

  /** A one-status query selects the concerns with exactly that status. */
  lemma SingleStatus(m: map<ConcernId, Concern>, st: Status)
    ensures WithStatus(m, {st}) == InStatus(m, st)
  {
  }

  lemma CategoryHistogramEntries(m: map<ConcernId, Concern>)
    ensures var h := Histogram(m, CategoryOf, AllCategories);
      && (forall cat :: cat in h <==> InCategory(m, cat) != {})
      && (forall cat :: cat in h ==> h[cat] == |InCategory(m, cat)|)
  {
    forall cat
      ensures Labelled(m, CategoryOf, cat) == InCategory(m, cat)
    {
      CategoryListed(cat);
    }
  }

  lemma SeverityHistogramEntries(m: map<ConcernId, Concern>)
    ensures var h := Histogram(m, SeverityOf, AllSeverities);
      && (forall sev :: sev in h <==> OfSeverity(m, sev) != {})
      && (forall sev :: sev in h ==> h[sev] == |OfSeverity(m, sev)|)
  {
    forall sev
      ensures Labelled(m, SeverityOf, sev) == OfSeverity(m, sev)
    {
      SeverityListed(sev);
    }
  }

  /** Disjoint sets of statuses select disjoint sets of concerns. */
  lemma StatusSplit(m: map<ConcernId, Concern>, a: set<Status>, b: set<Status>)
    requires a !! b
    ensures |WithStatus(m, a + b)| == |WithStatus(m, a)| + |WithStatus(m, b)|
  {
    assert WithStatus(m, a) !! WithStatus(m, b);
    assert WithStatus(m, a + b) == WithStatus(m, a) + WithStatus(m, b);
  }

  lemma StatusCovered(st: Status)
    ensures st in AnyStatus
  {
    match st
    case Submitted => case InReview => case Assigned => case InProgress =>
    case Resolved => case Closed => case Reopened =>
  }

  /** The seven statuses. */
  const AnyStatus: set<Status> := PendingStatuses + {Resolved} + {Closed} + {Reopened}

  /** Pending, resolved, closed, reopened and no status at all split the
      concerns between them. */
  lemma StatusBuckets(m: map<ConcernId, Concern>)
    ensures |WithStatus(m, PendingStatuses)| + |InStatus(m, Resolved)| + |InStatus(m, Closed)|
            + |InStatus(m, Reopened)| + |WithoutStatus(m)| == |m|
  {
    StatusedSplit(m);
    StatusCover(m);
    SingleStatus(m, Resolved);
    SingleStatus(m, Closed);
    SingleStatus(m, Reopened);
  }

  /** The concerns with some status split by the four groups. */
  lemma StatusedSplit(m: map<ConcernId, Concern>)
    ensures |WithStatus(m, AnyStatus)| == |WithStatus(m, PendingStatuses)| + |WithStatus(m, {Resolved})|
            + |WithStatus(m, {Closed})| + |WithStatus(m, {Reopened})|
  {
    StatusSplit(m, PendingStatuses, {Resolved});
    StatusSplit(m, PendingStatuses + {Resolved}, {Closed});
    StatusSplit(m, PendingStatuses + {Resolved} + {Closed}, {Reopened});
  }

  /** Every concern either has one of the seven statuses or none. */
  lemma StatusCover(m: map<ConcernId, Concern>)
    ensures |WithStatus(m, AnyStatus)| + |WithoutStatus(m)| == |m|
  {
    forall k | k in m && m[k].status.Some?
      ensures m[k].status.value in AnyStatus
    {
      StatusCovered(m[k].status.value);
    }
    assert WithStatus(m, AnyStatus) !! WithoutStatus(m);
    assert WithStatus(m, AnyStatus) + WithoutStatus(m) == m.Keys;
  }

  lemma CategoryListed(c: Category)
    ensures c in AllCategories
  {
    match c
    case Technical => case Personal => case Financial => case Behavioral => case Misconduct =>
    case Infrastructure => case CourseContent => case MentorRelated => case OtherCategory =>
  }

  lemma SeverityListed(v: Severity)
    ensures v in AllSeverities
  {
    match v
    case Low => case Medium => case High => case Critical =>
  }

  /** Every concern has one of the nine categories, so the category histogram
      adds up to the number of concerns. */
  lemma CategoryHistogramTotal(m: map<ConcernId, Concern>)
    ensures HistogramSum(Histogram(m, CategoryOf, AllCategories), AllCategories) == |m|
  {
    var tag := CategoryOf;
    HistogramCounts(m, tag, AllCategories, AllCategories);
    forall k | k in m
      ensures tag(m[k]) in AllCategories
    {
      CategoryListed(m[k].category);
    }
    assert (set k | k in m && tag(m[k]) in AllCategories) == m.Keys;
  }

  /** Every concern has one of the four severities, so the severity histogram
      adds up to the number of concerns. */
  lemma SeverityHistogramTotal(m: map<ConcernId, Concern>)
    ensures HistogramSum(Histogram(m, SeverityOf, AllSeverities), AllSeverities) == |m|
  {
    var tag := SeverityOf;
    HistogramCounts(m, tag, AllSeverities, AllSeverities);
    forall k | k in m
      ensures tag(m[k]) in AllSeverities
    {
      SeverityListed(m[k].severity);
    }
    assert (set k | k in m && tag(m[k]) in AllSeverities) == m.Keys;
  }
}
