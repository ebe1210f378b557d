/** The chat thread handlers of `controllers/chatController.js`: reading and
    posting are guarded by one access predicate, posting appends one message
    and emits it to the concern's room, and marking as read flips the read
    flag of every unread message someone else sent in the thread. */
module ChatController {
  import opened Domain
  import opened Text
  import opened ConcernModel
  import opened ChatModel
  import opened Users
  import opened Realtime
  import opened Backend
  import opened Ordering

  /** Who may read and post in a concern's thread: its owner when a student,
      its assignee (whatever their role), and admins and superadmins. */
  predicate CanAccessChat(actor: User, c: Concern) {
    || (actor.role == Student && c.student == actor.id)
    || c.assignedTo == Some(actor.id)
    || IsAdmin(actor.role)
  }

  /** What the predicate means role by role: admins always get in, a mentor
      only as the assignee (so an unassigned concern shuts every mentor out),
      and a student as the owner or, since the assignee clause ignores the
      role, as the assignee. */
  lemma AccessByRole(actor: User, c: Concern)
    ensures actor.role == Mentor ==> (CanAccessChat(actor, c) <==> c.assignedTo == Some(actor.id))
    ensures actor.role == Student ==>
      (CanAccessChat(actor, c) <==> c.student == actor.id || c.assignedTo == Some(actor.id))
    ensures IsAdmin(actor.role) ==> CanAccessChat(actor, c)
    ensures c.assignedTo.None? && actor.role == Mentor ==> !CanAccessChat(actor, c)
  {
  }

  // ---------------------------------------------------------------- read

  /** The messages of one concern, in the order they were stored. */
  function ThreadOf(chats: seq<ChatMessage>, id: ConcernId): (r: seq<ChatMessage>)
    ensures |r| <= |chats|
    ensures forall m :: m in r <==> m in chats && m.concern == id
    ensures forall m :: multiset(r)[m] == if m.concern == id then multiset(chats)[m] else 0
  {
    if chats == [] then []
    else
      var rest := ThreadOf(chats[..|chats| - 1], id);
      var last := chats[|chats| - 1];
      assert chats == chats[..|chats| - 1] + [last];
      assert multiset(chats) == multiset(chats[..|chats| - 1]) + multiset{last};
      if last.concern == id then rest + [last] else rest
  }

  /** The creation time of a message. */
  function CreatedAt(m: ChatMessage): nat {
    m.createdAt
  }

  /** Creation times never decrease along the list. */
  predicate OldestFirst(xs: seq<ChatMessage>) {
    forall i, j :: 0 <= i < j < |xs| ==> xs[i].createdAt <= xs[j].createdAt
  }

  /** `.sort({ createdAt: 1 })`: the same messages, oldest first. Messages
      with equal times keep their stored order. */
  function SortOldestFirst(xs: seq<ChatMessage>): (r: seq<ChatMessage>)
    ensures multiset(r) == multiset(xs)
    ensures OldestFirst(r)
  {
    if xs == [] then []
    else
      assert xs == xs[..|xs| - 1] + [xs[|xs| - 1]];
      var sorted := SortOldestFirst(xs[..|xs| - 1]);
      assert Ascending(CreatedAt, sorted);
      var r := InsertAscending(CreatedAt, xs[|xs| - 1], sorted);
      assert OldestFirst(r) by {
        forall i, j | 0 <= i < j < |r|
          ensures r[i].createdAt <= r[j].createdAt
        {
          assert CreatedAt(r[i]) <= CreatedAt(r[j]);
        }
      }
      r
  }

  /** `getMessages`: `NotFound` for a missing concern, `Forbidden` without
      chat access, otherwise exactly that concern's messages, oldest first. */
  function GetMessages(s: Store, actor: User, id: ConcernId): (r: Result<seq<ChatMessage>>)
    ensures r.Failure? ==> r.code == NotFound || r.code == Forbidden
    ensures r.Failure? && r.code == NotFound <==> id !in s.concerns
    ensures r.Failure? && r.code == Forbidden <==> id in s.concerns && !CanAccessChat(actor, s.concerns[id])
    ensures r.Success? ==>
      && multiset(r.value) == multiset(ThreadOf(s.chats, id))
      && (forall m :: m in r.value <==> m in s.chats && m.concern == id)
      && (forall m :: multiset(r.value)[m] == if m.concern == id then multiset(s.chats)[m] else 0)
      && OldestFirst(r.value)
  {
    if id !in s.concerns then Failure(NotFound)
    else if !CanAccessChat(actor, s.concerns[id]) then Failure(Forbidden)
    else
      var thread := ThreadOf(s.chats, id);
      var sorted := SortOldestFirst(thread);
      assert forall m :: m in sorted <==> m in multiset(sorted);
      assert forall m :: m in thread <==> m in multiset(thread);
      Success(sorted)
  }

  // ---------------------------------------------------------------- send

  /** Some stored message already has id `id`. */
  predicate MessageIdTaken(chats: seq<ChatMessage>, id: MessageId) {
    exists i :: 0 <= i < |chats| && chats[i].id == id
  }

  /** `sendMessage`: after the existence and access guards the message is
      created (a duplicate `_id` or a text that is empty after trimming or
      longer than 1000 characters fails the save); on success exactly one
      message is appended and exactly one `new-message` goes to the
      concern's room. */
  function SendMessage(s: Store, actor: User, id: ConcernId, text: string, files: seq<Attachment>,
                       newId: MessageId, now: nat): (r: Outcome)
    ensures r.code == Ok || r.code == NotFound || r.code == Forbidden || r.code == Invalid
    ensures r.code == NotFound <==> id !in s.concerns
    ensures r.code == Forbidden <==> id in s.concerns && !CanAccessChat(actor, s.concerns[id])
    ensures r.code == Ok <==>
      && id in s.concerns && CanAccessChat(actor, s.concerns[id])
      && !MessageIdTaken(s.chats, newId)
      && !AllSpace(text) && |Trim(text)| <= MessageMax
    ensures r.code != Ok ==> r.store == s && r.emits == []
    ensures r.store.concerns == s.concerns && r.store.users == s.users && r.store.bus == s.bus
    ensures r.code == Ok ==>
      && |r.store.chats| == |s.chats| + 1
      && r.store.chats[..|s.chats|] == s.chats
      && var m := r.store.chats[|s.chats|];
      && m.id == newId && m.concern == id && m.sender == actor.id
      && m.message == Trim(text) && m.attachments == files
      && !m.isRead && m.readAt.None? && m.createdAt == now
      && r.emits == [Emit(ConcernRoom(id), NewMessage(m))]
  {
    if id !in s.concerns then Refuse(s, NotFound)
    else if !CanAccessChat(actor, s.concerns[id]) then Refuse(s, Forbidden)
    else if MessageIdTaken(s.chats, newId) then Refuse(s, Invalid)
    else
      match CreateMessage(newId, id, actor.id, text, files, now)
      case Failure(code) => Refuse(s, code)
      case Success(m) =>
        assert (s.chats + [m])[..|s.chats|] == s.chats;
        Outcome(Ok, s.(chats := s.chats + [m]), [EmitNewMessage(id, m)])
  }

  /** A sent message keeps every stored message well formed and the message
      ids distinct, and reaches exactly the sockets in the concern's room. */
  lemma SendPreservesInv(s: Store, actor: User, id: ConcernId, text: string, files: seq<Attachment>,
                         newId: MessageId, now: nat)
    requires StoreInv(s)
    ensures var r := SendMessage(s, actor, id, text, files, newId, now);
            && StoreInv(r.store)
            && (r.code == Ok ==> forall sock ::
                  (Delivery(sock, NewMessage(r.store.chats[|s.chats|])) in Deliveries(r) <==>
                   s.bus.initialized && sock in Members(s.bus, ConcernRoom(id))))
  {
    var r := SendMessage(s, actor, id, text, files, newId, now);
    if r.code == Ok {
      var c := r.store.chats;
      var m := c[|s.chats|];
      assert WellFormedMessage(m);
      forall i | 0 <= i < |c|
        ensures WellFormedMessage(c[i])
      {
        if i < |s.chats| {
          assert c[i] == s.chats[i];
        }
      }
      forall i, j | 0 <= i < j < |c|
        ensures c[i].id != c[j].id
      {
        assert c[i] == s.chats[i];
        if j < |s.chats| {
          assert c[j] == s.chats[j];
        }
      }
      var e := Emit(ConcernRoom(id), NewMessage(m));
      assert r.emits == [e];
      forall sock
        ensures Delivery(sock, NewMessage(m)) in Deliveries(r) <==> s.bus.initialized && sock in Members(s.bus, ConcernRoom(id))
      {
        assert Delivery(sock, NewMessage(m)) in Deliveries(r) <==> Delivery(sock, NewMessage(m)) in Deliver(s.bus, e);
      }
    }
  }

  // ---------------------------------------------------------------- read state

  /** The messages `markAsRead` flips: unread messages of the concern that
      someone other than the reader sent. */
  predicate Unseen(m: ChatMessage, id: ConcernId, reader: UserId) {
    m.concern == id && m.sender != reader && !m.isRead
  }

  /** The `updateMany` of `markAsRead`, message by message. */
  function MarkAll(chats: seq<ChatMessage>, id: ConcernId, reader: UserId, now: nat): (r: seq<ChatMessage>)
    ensures |r| == |chats|
    ensures forall i :: 0 <= i < |chats| && Unseen(chats[i], id, reader) ==>
      r[i] == chats[i].(isRead := true, readAt := Some(now))
    ensures forall i :: 0 <= i < |chats| && !Unseen(chats[i], id, reader) ==> r[i] == chats[i]
  {
    if chats == [] then []
    else
      var m := chats[0];
      var rest := MarkAll(chats[1..], id, reader, now);
      var r := [if Unseen(m, id, reader) then m.(isRead := true, readAt := Some(now)) else m] + rest;
      assert forall i :: 1 <= i < |chats| ==> r[i] == rest[i - 1] && chats[i] == chats[1..][i - 1];
      r
  }

  /** `markAsRead`: no existence or access check, always `Ok`, no emit; a
      flipped message changes only in its read flag and read time, and every
      other message is left as it was. */
  function MarkAsRead(s: Store, actor: User, id: ConcernId, now: nat): (r: Outcome)
    ensures r.code == Ok && r.emits == []
    ensures r.store.concerns == s.concerns && r.store.users == s.users && r.store.bus == s.bus
    ensures |r.store.chats| == |s.chats|
    ensures forall i :: 0 <= i < |s.chats| ==>
      && r.store.chats[i].id == s.chats[i].id
      && r.store.chats[i].concern == s.chats[i].concern
      && r.store.chats[i].sender == s.chats[i].sender
      && r.store.chats[i].message == s.chats[i].message
      && r.store.chats[i].createdAt == s.chats[i].createdAt
    ensures forall i :: 0 <= i < |s.chats| ==>
      (r.store.chats[i] != s.chats[i] <==> Unseen(s.chats[i], id, actor.id))
    ensures forall i :: 0 <= i < |s.chats| && Unseen(s.chats[i], id, actor.id) ==>
      r.store.chats[i] == s.chats[i].(isRead := true, readAt := Some(now))
  {
    Outcome(Ok, s.(chats := MarkAll(s.chats, id, actor.id, now)), [])
  }

  /** Marking twice is marking once: nothing the first call leaves is unseen
      any more, and a read time once set is never overwritten. */
  lemma MarkAsReadIdempotent(s: Store, actor: User, id: ConcernId, now: nat, later: nat)
    ensures var once := MarkAsRead(s, actor, id, now).store;
            MarkAsRead(once, actor, id, later).store == once
  {
    var once := MarkAsRead(s, actor, id, now).store;
    var twice := MarkAsRead(once, actor, id, later).store;
    forall i | 0 <= i < |once.chats|
      ensures !Unseen(once.chats[i], id, actor.id)
    {
    }
    assert twice.chats == once.chats;
  }

  /** With no message in the concern's thread the call changes nothing, even
      when the concern does not exist. */
  lemma MarkAsReadEmptyThread(s: Store, actor: User, id: ConcernId, now: nat)
    requires forall i :: 0 <= i < |s.chats| ==> s.chats[i].concern != id
    ensures MarkAsRead(s, actor, id, now).store == s
  {
    var r := MarkAsRead(s, actor, id, now).store;
    assert r.chats == s.chats;
  }

  /** Anyone can mark a thread read, chat access or not, and the invariant
      on the stored messages survives. */
  lemma MarkAsReadPreservesInv(s: Store, actor: User, id: ConcernId, now: nat)
    requires StoreInv(s)
    ensures StoreInv(MarkAsRead(s, actor, id, now).store)
  {
    var c := MarkAsRead(s, actor, id, now).store.chats;
    forall i | 0 <= i < |c|
      ensures WellFormedMessage(c[i])
    {
      assert WellFormedMessage(s.chats[i]);
    }
  }
}
