/** The in-memory stand-in for the datastore and the realtime handle that every
    controller works against, and the shape of a controller's outcome. */
module Backend {
  import opened Domain
  import opened ConcernModel
  import opened ChatModel
  import opened Users
  import opened Realtime

  /** The concerns and users collections keyed by `_id`, the chat collection in
      insertion order, and the realtime bus. */
  datatype Store = Store(
    concerns: map<ConcernId, Concern>,
    chats: seq<ChatMessage>,
    users: map<UserId, User>,
    bus: Bus)

  /** What a mutating request produces: its result code, the store after it and
      the realtime emits it asked for, in order. */
  datatype Outcome = Outcome(code: Code, store: Store, emits: seq<Emit>)

  /** A request that ends early: nothing stored, nothing emitted. */
  function Refuse(s: Store, code: Code): Outcome {
    Outcome(code, s, [])
  }

  predicate MessageIdsDistinct(chats: seq<ChatMessage>) {
    forall i, j :: 0 <= i < j < |chats| ==> chats[i].id != chats[j].id
  }

  /** What holds of every store the backend reaches from an empty one. */
  predicate StoreInv(s: Store) {
    && (forall k :: k in s.concerns ==> WellFormed(s.concerns[k]))
    && UniqueTicketIds(s.concerns)
    && (forall i :: 0 <= i < |s.chats| ==> WellFormedMessage(s.chats[i]))
    && MessageIdsDistinct(s.chats)
    && (forall k :: k in s.users ==> s.users[k].id == k)
  }

  /** The sockets an outcome's emits reach. */
  function Deliveries(o: Outcome): set<Delivery> {
    Publish(o.store.bus, o.emits)
  }
}
