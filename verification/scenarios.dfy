/** Properties that span several handlers: the life of one concern from
    creation to rating, the ticket-id collision that deletion makes possible,
    the literal substring search on ticket ids, and how the route gates and
    the controller checks combine. */
module Scenarios {
  import opened Domain
  import opened Text
  import opened ConcernModel
  import opened ChatModel
  import opened Users
  import opened Realtime
  import opened Backend
  import opened Routes
  import opened ConcernController
  import opened ChatController
  import opened UserController

  /** A form the datastore accepts apart from the ticket id: valid enumeration
      names and a title and description within bounds once trimmed. */
  predicate ValidForm(actor: User, form: NewConcernForm) {
    && EnumsAccepted(actor, form)
    && RequiredText(Trim(form.title), TitleMax)
    && RequiredText(Trim(form.description), DescriptionMax)
  }

  /** Where one concern stands in its life: the store invariant holds, the
      concern is filed for `owner`, the mentor exists, and the timeline
      carries exactly the given statuses. */
  predicate Tracked(s: Store, id: ConcernId, owner: UserId, mentorId: UserId, statuses: seq<Status>) {
    && StoreInv(s)
    && id in s.concerns && mentorId in s.users
    && s.concerns[id].student == owner
    && |s.concerns[id].timeline| == |statuses|
    && (forall i :: 0 <= i < |statuses| ==> s.concerns[id].timeline[i].status == Some(statuses[i]))
  }

  /** A student files a concern, an admin assigns it to a mentor, the mentor
      marks it resolved and the student rates it: every step succeeds, the
      timeline records Submitted, Assigned, Resolved in that order, and the
      store invariant holds throughout. */
  lemma Lifecycle(s: Store, student: User, admin: User, mentorId: UserId, form: NewConcernForm,
                  files: seq<Attachment>, id: ConcernId, t0: nat, t1: nat, t2: nat, rating: real, feedback: string)
    requires StoreInv(s)
    requires CreateAccepted(s, student, form, id)
    requires mentorId in s.users
    requires RatingMin <= rating <= RatingMax && |Trim(feedback)| <= FeedbackMax
    ensures var r1 := CreateConcern(s, student, form, files, id, t0);
            var r2 := AssignConcern(r1.store, admin, id, mentorId, t1);
            var r3 := UpdateConcernStatus(r2.store, s.users[mentorId], id, Some("Resolved"), "", t2);
            var r4 := RateConcern(r3.store, student, id, Some(rating), feedback);
            && r1.code == Ok && r2.code == Ok && r3.code == Ok && r4.code == Ok
            && Tracked(r4.store, id, student.id, mentorId, [Submitted, Assigned, Resolved])
            && r4.store.concerns[id].assignedTo == Some(mentorId)
            && r4.store.concerns[id].status == Some(Resolved)
            && r4.store.concerns[id].rating == Some(rating)
  {
    var r1 := CreateConcern(s, student, form, files, id, t0);
    CreateStep(s, student, mentorId, form, files, id, t0);
    var r2 := AssignConcern(r1.store, admin, id, mentorId, t1);
    AssignStep(r1.store, admin, student.id, mentorId, id, t1);
    var mentor := s.users[mentorId];
    assert r2.store.users[mentorId] == mentor;
    var r3 := UpdateConcernStatus(r2.store, mentor, id, Some("Resolved"), "", t2);
    ResolveStep(r2.store, mentor, student.id, mentorId, id, t2);
    RateStep(r3.store, student, mentorId, id, rating, feedback);
  }

  /** The first step: creation files the concern with a one-entry timeline. */
  lemma CreateStep(s: Store, student: User, mentorId: UserId, form: NewConcernForm,
                   files: seq<Attachment>, id: ConcernId, t0: nat)
    requires StoreInv(s) && CreateAccepted(s, student, form, id) && mentorId in s.users
    ensures var r := CreateConcern(s, student, form, files, id, t0);
            && r.code == Ok && r.store.users == s.users
            && Tracked(r.store, id, student.id, mentorId, [Submitted])
  {
    CreatePreservesInv(s, student, form, files, id, t0);
  }

  /** The second step: assignment appends `Assigned` and records the mentor. */
  lemma AssignStep(s: Store, admin: User, owner: UserId, mentorId: UserId, id: ConcernId, t1: nat)
    requires Tracked(s, id, owner, mentorId, [Submitted])
    ensures var r := AssignConcern(s, admin, id, mentorId, t1);
            && r.code == Ok && r.store.users == s.users
            && r.store.concerns[id].assignedTo == Some(mentorId)
            && Tracked(r.store, id, owner, mentorId, [Submitted, Assigned])
  {
    AssignAccepted(s, admin, id, mentorId, t1);
  }

  /** The third step: the mentor marks the concern resolved. */
  lemma ResolveStep(s: Store, mentor: User, owner: UserId, mentorId: UserId, id: ConcernId, t2: nat)
    requires Tracked(s, id, owner, mentorId, [Submitted, Assigned])
    requires s.concerns[id].assignedTo == Some(mentorId)
    ensures var r := UpdateConcernStatus(s, mentor, id, Some("Resolved"), "", t2);
            && r.code == Ok
            && r.store.concerns[id].status == Some(Resolved)
            && r.store.concerns[id].assignedTo == Some(mentorId)
            && Tracked(r.store, id, owner, mentorId, [Submitted, Assigned, Resolved])
  {
    StatusUpdateAccepted(s, mentor, id, Some("Resolved"), "", t2);
  }

  /** The last step: the owner rates the resolved concern; the timeline stays. */
  lemma RateStep(s: Store, student: User, mentorId: UserId, id: ConcernId, rating: real, feedback: string)
    requires Tracked(s, id, student.id, mentorId, [Submitted, Assigned, Resolved])
    requires s.concerns[id].status == Some(Resolved) && s.concerns[id].assignedTo == Some(mentorId)
    requires RatingMin <= rating <= RatingMax && |Trim(feedback)| <= FeedbackMax
    ensures var r := RateConcern(s, student, id, Some(rating), feedback);
            && r.code == Ok
            && r.store.concerns[id].status == Some(Resolved)
            && r.store.concerns[id].assignedTo == Some(mentorId)
            && r.store.concerns[id].rating == Some(rating)
            && Tracked(r.store, id, student.id, mentorId, [Submitted, Assigned, Resolved])
  {
    RateAccepted(s, student, id, Some(rating), feedback);
  }

  /** Ticket ids are numbered after the number of stored concerns, so after a
      deletion the next number can already be in use: create two concerns,
      delete the first, and the third creation is refused with nothing stored. */
  lemma TicketCollisionAfterDelete(s: Store, actor: User, fa: NewConcernForm, fb: NewConcernForm,
                                   fc: NewConcernForm, a: ConcernId, b: ConcernId, c: ConcernId,
                                   files: seq<Attachment>, now: nat)
    requires s.concerns == map[]
    requires a != b && c != b
    requires ValidForm(actor, fa) && ValidForm(actor, fb) && ValidForm(actor, fc)
    ensures var r1 := CreateConcern(s, actor, fa, files, a, now);
            var r2 := CreateConcern(r1.store, actor, fb, files, b, now);
            var r3 := DeleteConcern(r2.store, a);
            var r4 := CreateConcern(r3.store, actor, fc, files, c, now);
            && r1.code == Ok && r1.store.concerns[a].ticketId == FormatTicketId(0)
            && r2.code == Ok && r2.store.concerns[b].ticketId == FormatTicketId(1)
            && r3.code == Ok && |r3.store.concerns| == 1
            && r4.code == Invalid && r4.store == r3.store
  {
    var r1 := CreateConcern(s, actor, fa, files, a, now);
    FirstTicket(s, actor, fa, files, a, now);
    var r2 := CreateConcern(r1.store, actor, fb, files, b, now);
    SecondTicket(r1.store, actor, fb, files, a, b, now);
    var r3 := DeleteConcern(r2.store, a);
    DeleteFirst(r2.store, a, b);
    TicketTaken(r3.store, actor, fc, files, b, c, now);
  }

  /** Deleting one of two concerns leaves the other one alone. */
  lemma DeleteFirst(s: Store, a: ConcernId, b: ConcernId)
    requires s.concerns.Keys == {a, b} && a != b
    ensures var r := DeleteConcern(s, a);
            && r.code == Ok
            && r.store.concerns.Keys == {b}
            && |r.store.concerns| == 1
            && r.store.concerns[b] == s.concerns[b]
  {
    var r := DeleteConcern(s, a);
    assert r.store.concerns.Keys == {b};
  }

  /** What an accepted creation leaves in the store, by key. */
  lemma Created(s: Store, actor: User, form: NewConcernForm, files: seq<Attachment>, newId: ConcernId, now: nat)
    requires CreateAccepted(s, actor, form, newId)
    ensures var r := CreateConcern(s, actor, form, files, newId, now);
            && r.code == Ok
            && r.store.concerns.Keys == s.concerns.Keys + {newId}
            && (forall k :: k in s.concerns ==> r.store.concerns[k] == s.concerns[k])
            && r.store.concerns[newId].ticketId == FormatTicketId(|s.concerns|)
  {
    var r := CreateConcern(s, actor, form, files, newId, now);
    var m := r.store.concerns;
    assert r.code == Ok && m == s.concerns[newId := m[newId]];
    assert m[newId].ticketId == FormatTicketId(|s.concerns|);
    UpdateKeys(s.concerns, newId, m[newId]);
  }

  /** Storing under a key adds that key and keeps every other entry. */
  lemma UpdateKeys<K, V>(m: map<K, V>, k: K, v: V)
    ensures m[k := v].Keys == m.Keys + {k}
    ensures forall j :: j in m && j != k ==> m[k := v][j] == m[j]
  {
  }

  /** Creating in an empty store stores one concern with the first number. */
  lemma FirstTicket(s: Store, actor: User, form: NewConcernForm, files: seq<Attachment>, a: ConcernId, now: nat)
    requires s.concerns == map[] && ValidForm(actor, form)
    ensures var r := CreateConcern(s, actor, form, files, a, now);
            && r.code == Ok
            && r.store.concerns.Keys == {a}
            && r.store.concerns[a].ticketId == FormatTicketId(0)
  {
    assert CreateAccepted(s, actor, form, a);
    Created(s, actor, form, files, a, now);
  }

  /** With one concern numbered 0 stored, the next creation is numbered 1. */
  lemma SecondTicket(s: Store, actor: User, form: NewConcernForm, files: seq<Attachment>, a: ConcernId,
                     b: ConcernId, now: nat)
    requires s.concerns.Keys == {a} && s.concerns[a].ticketId == FormatTicketId(0)
    requires a != b && ValidForm(actor, form)
    ensures var r := CreateConcern(s, actor, form, files, b, now);
            && r.code == Ok
            && r.store.concerns.Keys == {a, b}
            && r.store.concerns[a] == s.concerns[a]
            && r.store.concerns[b].ticketId == FormatTicketId(1)
  {
    SecondAccepted(s, actor, form, a, b);
    Created(s, actor, form, files, b, now);
  }

  /** With one concern numbered 0 stored, number 1 is still free. */
  lemma SecondAccepted(s: Store, actor: User, form: NewConcernForm, a: ConcernId, b: ConcernId)
    requires s.concerns.Keys == {a} && s.concerns[a].ticketId == FormatTicketId(0)
    requires a != b && ValidForm(actor, form)
    ensures |s.concerns| == 1 && CreateAccepted(s, actor, form, b)
  {
    assert |s.concerns| == 1 by {
      assert s.concerns.Keys == {a};
    }
    assert !TicketIdTaken(s.concerns, b, FormatTicketId(1)) by {
      TicketIdInjective(0, 1);
    }
  }

  /** With one concern stored that already holds number 1, the next creation
      draws number 1 again and the unique index refuses it. */
  lemma TicketTaken(s: Store, actor: User, form: NewConcernForm, files: seq<Attachment>, b: ConcernId,
                    c: ConcernId, now: nat)
    requires s.concerns.Keys == {b} && s.concerns[b].ticketId == FormatTicketId(1)
    requires c != b
    ensures var r := CreateConcern(s, actor, form, files, c, now);
            r.code == Invalid && r.store == s
  {
    assert |s.concerns.Keys| == 1;
    assert TicketIdTaken(s.concerns, c, FormatTicketId(1));
  }

  /** The search is a substring match, not an exact ticket lookup: searching
      `BRT00001` finds ticket `BRT000010` but not ticket `BRT000001`. */
  lemma SearchIsSubstring()
    ensures FormatTicketId(0) == "BRT000001"
    ensures FormatTicketId(9) == "BRT000010"
    ensures ContainsIgnoreCase(FormatTicketId(9), "BRT00001")
    ensures !ContainsIgnoreCase(FormatTicketId(0), "BRT00001")
  {
    assert DecimalString(1) == "1";
    assert DecimalString(10) == "10";
    assert OccursAt("BRT000010", "BRT00001", 0);
    forall i | 0 <= i <= 1
      ensures !OccursAt("BRT000001", "BRT00001", i)
    {
      if i == 0 {
        assert Lower("BRT000001"[0..8])[7] != Lower("BRT00001")[7];
      } else {
        assert Lower("BRT000001"[1..9])[0] != Lower("BRT00001")[0];
      }
    }
  }

  /** The route admits only students to rating and the controller only the
      owner, so a rating is stored only when a student rates their own concern. */
  lemma RatingNeedsStudentOwner(s: Store, actor: User, id: ConcernId, rating: Option<real>, feedback: string)
    requires Resolve(ConcernRoutes, Put, [id, "rate"], Some(actor.role)) == Reached(RateConcernH)
    requires RateConcern(s, actor, id, rating, feedback).code == Ok
    ensures actor.role == Student && id in s.concerns && s.concerns[id].student == actor.id
  {
    StudentOnlyConcernGates(Put, [id, "rate"], Some(actor.role));
  }

  /** Neither the route nor the handler ties a status change to the
      assignment: a mentor who is not assigned still reaches the handler and
      can close the concern. */
  lemma UnassignedMentorClosesConcern(s: Store, actor: User, id: ConcernId, comment: string, now: nat)
    requires StoreInv(s) && id in s.concerns && id != ""
    requires actor.role == Mentor && s.concerns[id].assignedTo != Some(actor.id)
    ensures Resolve(ConcernRoutes, Put, [id, "status"], Some(actor.role)) == Reached(UpdateConcernStatusH)
    ensures UpdateConcernStatus(s, actor, id, Some("Closed"), comment, now).code == Ok
    ensures !CanAccessChat(actor, s.concerns[id])
  {
    LiteralsLowercase();
    StatusEndpoint(actor.role, id, "status");
    StatusUpdateAccepted(s, actor, id, Some("Closed"), comment, now);
  }

  /** A status update whose body names no status is accepted: the concern is
      left without a status, the room hears a status-less update, the stats
      count the concern in none of their status buckets, and its owner can no
      longer rate it. */
  lemma StatuslessUpdate(s: Store, actor: User, owner: User, id: ConcernId, comment: string, now: nat,
                         rating: Option<real>, feedback: string)
    requires StoreInv(s) && id in s.concerns && s.concerns[id].student == owner.id
    ensures var r := UpdateConcernStatus(s, actor, id, None, comment, now);
            && r.code == Ok
            && r.store.concerns[id].status.None?
            && r.emits == [Emit(ConcernRoom(id), StatusChanged(None, actor.name, comment, now))]
            && id in WithoutStatus(r.store.concerns)
            && id !in WithStatus(r.store.concerns, AnyStatus)
            && RateConcern(r.store, owner, id, rating, feedback).code == BadRequest
  {
    StatusUpdateAccepted(s, actor, id, None, comment, now);
  }

  /** Deleting a user leaves their concerns behind; a student reading such a
      concern afterwards makes the handler fail. */
  lemma DeletedOwnerBreaksStudentRead(s: Store, actor: User, id: ConcernId)
    requires id in s.concerns && s.concerns[id].student in s.users
    requires actor.role == Student
    ensures var s1 := DeleteUser(s, s.concerns[id].student).store;
            id in s1.concerns && GetConcernById(s1, actor, id) == Failure(Invalid)
  {
  }

  /** A message the assignee sends shows up in the thread the owner reads,
      and it is the newest one there. */
  lemma SentMessageIsRead(s: Store, sender: User, owner: User, id: ConcernId, text: string, newId: MessageId, now: nat)
    requires id in s.concerns && s.concerns[id].student == owner.id && owner.role == Student
    requires forall i :: 0 <= i < |s.chats| ==> s.chats[i].createdAt <= now
    requires SendMessage(s, sender, id, text, [], newId, now).code == Ok
    ensures var s1 := SendMessage(s, sender, id, text, [], newId, now).store;
            var thread := GetMessages(s1, owner, id);
            && thread.Success?
            && s1.chats[|s.chats|] in thread.value
            && thread.value[|thread.value| - 1].createdAt == now
  {
    var s1 := SendMessage(s, sender, id, text, [], newId, now).store;
    SentIsNewest(s, sender, id, text, newId, now);
    ReadNewest(s1, owner, id, s1.chats[|s.chats|], now);
  }

  /** After a successful send the new message is the last one stored, it
      belongs to the concern, and no stored message is newer than it. */
  lemma SentIsNewest(s: Store, sender: User, id: ConcernId, text: string, newId: MessageId, now: nat)
    requires forall i :: 0 <= i < |s.chats| ==> s.chats[i].createdAt <= now
    requires SendMessage(s, sender, id, text, [], newId, now).code == Ok
    ensures var s1 := SendMessage(s, sender, id, text, [], newId, now).store;
            && s1.concerns == s.concerns
            && |s1.chats| == |s.chats| + 1
            && s1.chats[|s.chats|].concern == id
            && s1.chats[|s.chats|].createdAt == now
            && (forall x :: x in s1.chats ==> x.createdAt <= now)
  {
    var s1 := SendMessage(s, sender, id, text, [], newId, now).store;
    var m := s1.chats[|s.chats|];
    assert s1.chats == s.chats + [m] by {
      assert s1.chats[..|s.chats|] == s.chats;
    }
    forall x | x in s1.chats
      ensures x.createdAt <= now
    {
      var j :| 0 <= j < |s1.chats| && s1.chats[j] == x;
      if j < |s.chats| {
        assert x == s.chats[j];
      }
    }
  }

  /** A reader with access finds a stored message of the concern in its
      thread, and when nothing stored is newer, it is the thread's last. */
  lemma ReadNewest(s: Store, reader: User, id: ConcernId, m: ChatMessage, now: nat)
    requires id in s.concerns && CanAccessChat(reader, s.concerns[id])
    requires m in s.chats && m.concern == id && m.createdAt == now
    requires forall x :: x in s.chats ==> x.createdAt <= now
    ensures var thread := GetMessages(s, reader, id);
            && thread.Success?
            && m in thread.value
            && thread.value[|thread.value| - 1].createdAt == now
  {
    var thread := GetMessages(s, reader, id);
    assert thread.Success?;
    LastIsNewest(thread.value, m, now);
  }

  /** In an oldest-first list whose members are all no newer than `m`, and
      which holds `m`, the last entry is as new as `m`. */
  lemma LastIsNewest(xs: seq<ChatMessage>, m: ChatMessage, bound: nat)
    requires OldestFirst(xs) && m in xs && m.createdAt == bound
    requires forall x :: x in xs ==> x.createdAt <= bound
    ensures xs[|xs| - 1].createdAt == bound
  {
    var k :| 0 <= k < |xs| && xs[k] == m;
    if k < |xs| - 1 {
      assert xs[k].createdAt <= xs[|xs| - 1].createdAt;
    }
  }
}
