# Concern-ticketing backend, modelled in Dafny

This project models the request-handling core of a concern-ticketing backend.
Students file concerns (tickets numbered `BRT000001`, `BRT000002`, …).
Admins assign them to mentors. Mentors and admins move them through seven
statuses, and students rate resolved concerns. A chat thread hangs off every
concern, and a realtime bus pushes new messages and status changes to the
sockets that joined the concern's room. Admins manage users.

The datastore, the mailer and the socket transport are abstracted away:

- **Store.** Every handler is a pure function over an in-memory `Store`
  (`Backend.Store`). It holds the concerns and users keyed by `_id`, the chat
  messages in insertion order, and the realtime bus: whether it is
  initialised, plus the room memberships.
- **Mutating handlers** return an `Outcome`: a result code, the store after the
  request, and the realtime emits it made, in order.
- **Read-only handlers** return a `Result`.
- **Identifiers.** Every id a handler receives is taken to be a well-formed
  ObjectId, so a lookup either finds a document or finds none.
- **Result codes.** `Ok` covers both 200 and 201. `Invalid` stands for every
  failed datastore save: schema validation, enumeration, or duplicate key.
  The handlers' catch blocks turn those into a 500.

Modules, following the program's files:

| module | file | models |
|---|---|---|
| `Domain`, `Text`, `Users` | `domain.dfy`, `text.dfy`, `users.dfy` | ids, roles, result codes, trimming, decimal digits, case-insensitive substring search, the user record |
| `ConcernModel` | `concern_model.dfy` | `models/Concern.js`: enumerations, bounds, defaults, the ticket-id hook, and `save()` with its unique index |
| `ChatModel` | `chat_model.dfy` | `models/Chat.js`: the message record and `Chat.create` |
| `Realtime` | `realtime.dfy` | `services/socketService.js`: rooms, emits, typing fan-out, the initialisation guard |
| `Backend` | `backend.dfy` | the store, the outcome of a request, and the invariant every reachable store keeps |
| `Ordering` | `ordering.dfy` | insertion into sorted lists, newest first for `.sort({ createdAt: -1 })` and oldest first for `.sort({ createdAt: 1 })` |
| `ConcernController` | `concern_controller.dfy` | `controllers/concernController.js` |
| `ChatController` | `chat_controller.dfy` | `controllers/chatController.js` |
| `UserController` | `user_controller.dfy` | `controllers/userController.js` |
| `Routes` | `routes.dfy` | `routes/concernRoutes.js`, `routes/userRoutes.js`, `routes/chatRoutes.js` as ordered tables with role gates |
| `Scenarios` | `scenarios.dfy` | properties spanning several handlers |

The model follows the code as it behaves:

- A mentor may change the status of any concern, assigned or not.
- Every non-student may read every concern.
- Any existing user can be made the assignee.
- `resolvedAt` and `closedAt` are never set.
- `markAsRead` checks neither existence nor access.
- Ticket numbers come from the current document count, so after a deletion
  a new concern can draw a number that is already taken. The unique index
  then refuses the save (`Scenarios.TicketCollisionAfterDelete`).
- The listing's `search` parameter builds a case-insensitive regular
  expression over the title and the ticket id, so it is a substring match:
  `BRT00001` finds `BRT000010` but not `BRT000001`
  (`Scenarios.SearchIsSubstring`).
- A status update whose body has no `status` is accepted: the enumeration
  validator lets an unset value through, so the concern is left without a
  status, a timeline entry without a status is appended and the room is told
  (`Scenarios.StatuslessUpdate`). Such a concern is counted in no status
  bucket of the statistics and cannot be rated.
- A rating is a JavaScript number, so `4.5` is a valid rating; the model keeps
  ratings as reals.
- Route literals such as `stats` and `rate` match in any letter case, as the
  router does by default: `GET /concerns/STATS` reaches the statistics, not
  the lookup by id.

## Model

| member | source | states |
|---|---|---|
| ConcernModel.ParseStatus | models/Concern.js:46-50 | a status name is accepted exactly when it names one of the seven statuses |
| ConcernModel.ParseSeverity | models/Concern.js:40-45 | a severity name is accepted exactly when it names one of the four severities |
| ConcernModel.ParseCategory | models/Concern.js:25-39 | a category name is accepted exactly when it names one of the nine categories |
| ConcernModel.ParseCampus | models/Concern.js:102-105 | a campus name is accepted exactly when it names one of the four campuses |
| ConcernModel.StatusNameRoundTrip | models/Concern.js:46-50 | every status is accepted back from its own name |
| ConcernModel.SeverityNameRoundTrip | models/Concern.js:40-45 | every severity is accepted back from its own name |
| ConcernModel.CategoryNameRoundTrip | models/Concern.js:25-39 | every category is accepted back from its own name |
| ConcernModel.CampusNameRoundTrip | models/Concern.js:102-105 | every campus is accepted back from its own name |
| ConcernModel.TicketIdRoundTrip | models/Concern.js:113-114 | the generated id decodes to count + 1, and it is nine characters long exactly while count + 1 fits in six digits |
| ConcernModel.TicketIdInjective | models/Concern.js:113-114 | different document counts never produce the same ticket id |
| ConcernModel.AssignTicketId | models/Concern.js:111-115 | an id is generated only when none is present, and an existing ticket id is never changed |
| ConcernModel.SaveConcern | models/Concern.js:110-117 | a save succeeds exactly when the `_id` is fresh (for a new document), the fields validate, and the hook's ticket id is not held by another concern; it then stores the concern under its id and keeps ticket ids unique |
| Text.Trim | models/Concern.js:13-24 | the trimmed string is a contiguous slice of the input with only whitespace cut on either side, has no surrounding whitespace, leaves an already trimmed string alone, and is empty exactly when the input is all whitespace |
| Text.TrimIsTheCore | models/Concern.js:13-24 | whenever a slice starts and ends with non-whitespace and only whitespace lies outside it, trimming yields exactly that slice |
| Text.DecimalRoundTrip | models/Concern.js:114 | the decimal rendering of a number reads back as that number |
| Text.LeadingZerosIgnored | models/Concern.js:114 | padding a numeral with `'0'` on the left does not change its value |
| Text.DecimalLength | models/Concern.js:114 | a number has at most k digits exactly when it is below 10^k |
| ChatModel.CreateMessage | models/Chat.js:14-34 | the message is stored exactly when its trimmed text is non-empty and at most 1000 characters; the new message is well formed, unread with no read time, and carries the given concern, sender, attachments and creation time |
| Realtime.RoomNamesDistinct | services/socketService.js:62-66 | concern rooms of different concerns differ, and a `user-` room is never a `concern-` room |
| Realtime.Initialize | services/socketService.js:5-12 | after initialisation the bus is live and every room is empty |
| Realtime.Join | services/socketService.js:18-21 | the socket is added to `concern-<id>` and no other room changes |
| Realtime.Leave | services/socketService.js:24-27 | the socket is removed from `concern-<id>` and no other room changes |
| Realtime.Disconnect | services/socketService.js:39-41 | a disconnected socket is in no room, and every other membership stays |
| Realtime.Deliver | services/socketService.js:48-59 | an emit reaches exactly the current members of its room, and nobody before initialisation |
| Realtime.Publish | services/socketService.js:48-59 | a sequence of emits delivers exactly what some emit of it delivers |
| Realtime.Typing | services/socketService.js:30-36 | typing signals reach every other member of the room, only members of the room, and never the sender |
| Realtime.TypingIsRoomEmitButSender | services/socketService.js:30-36 | the typing fan-out is exactly an emit of `user-typing` or `user-stop-typing` to the concern's room minus the sender's own delivery |
| Realtime.GetIO | services/socketService.js:68-73 | the handle is returned exactly when the bus has been initialised |
| Realtime.BeforeInitialisation | services/socketService.js:47-73 | before initialisation every emit delivers nothing while `getIO` fails |
| Realtime.JoinThenEmit | services/socketService.js:18-27 | joining is not gated: right after joining a socket receives the room's emits, and right after leaving it does not |
| Realtime.NotificationsReachNobody | services/socketService.js:62-66 | the socket handlers only ever create concern rooms, so a notification to a user room reaches nobody |
| ConcernController.ResolveCampus | controllers/concernController.js:21 | the chosen campus is stored as none when empty; otherwise it must name a campus, or the save fails |
| ConcernController.DraftConcern | controllers/concernController.js:14-26 | the draft exists exactly when the enumeration names are valid; it belongs to the actor, is `Submitted` with a one-entry timeline, uses default severity `Medium`, falls back to the actor's campus, is not anonymous unless asked, is unassigned and unrated |
| ConcernController.CreateConcern | controllers/concernController.js:9-58 | creation succeeds exactly when the datastore accepts it; on success only the new concern is added, numbered after the count, with the drafted fields; on failure nothing changes; nothing is emitted |
| ConcernController.CreatePreservesInv | controllers/concernController.js:14-26 | a successful creation keeps every concern well formed and ticket ids unique |
| ConcernController.UpdateConcernStatus | controllers/concernController.js:151-199 | a missing concern gives NotFound with nothing changed; on success the status becomes the requested one, or unset when the body has none, exactly one timeline entry by the actor is appended (even for the same status), nothing else changes, and one status update goes to the concern's room |
| ConcernController.StatusUpdateAccepted | controllers/concernController.js:158-174 | for an existing concern the update succeeds exactly when the status is absent or names one of the seven, with no transition or assignment check, and the store invariant is kept |
| ConcernController.AssignConcern | controllers/concernController.js:204-261 | NotFound when the concern or the assignee is missing, with nothing changed; on success the concern is assigned, set to `Assigned`, gains one entry commented `Assigned to <name>`, and one status update goes to its room |
| ConcernController.AssignAccepted | controllers/concernController.js:208-236 | under the store invariant, assignment succeeds exactly when both the concern and the user exist, whatever the user's role |
| ConcernController.RateConcern | controllers/concernController.js:266-311 | NotFound, then Forbidden for a non-owner, then BadRequest unless resolved or closed; on success the rating and trimmed feedback (empty if none) are stored while status and timeline stay |
| ConcernController.RateAccepted | controllers/concernController.js:287-297 | for the owner of a resolved or closed concern, rating succeeds exactly when the rating is absent or a number from 1 to 5, fractions included, and the trimmed feedback is at most 1000 characters |
| ConcernController.DeleteConcern | controllers/concernController.js:316-340 | NotFound for a missing id; otherwise exactly that concern is removed and the rest is unchanged |
| ConcernController.GetConcernById | controllers/concernController.js:113-146 | NotFound for a missing id; a student who is not the owner of a concern whose owner exists is Forbidden, the owner reads it, and every other role reads any concern |
| ConcernController.ReadByIdMatchesListing | controllers/concernController.js:63-146 | for an existing concern, a student reads it by id exactly when the unfiltered listing shows it to them, staff always read it, and a listed concern is read back unchanged |
| ConcernController.QueryMeaning | controllers/concernController.js:69-89 | a concern matches the built query exactly when the actor's role lets them see it and every present filter holds |
| ConcernController.RoleMeaning | controllers/concernController.js:69-75 | the role clause keeps a student's own concerns, a mentor's assigned ones, and everything for admins |
| ConcernController.FilterMeaning | controllers/concernController.js:77-89 | the filter clauses are conjunctive, each applied only when its parameter is present |
| ConcernController.GetAllConcerns | controllers/concernController.js:63-108 | the listing holds exactly the visible concerns passing every present filter, each once, newest first |
| ConcernController.HistogramCounts | controllers/concernController.js:354-364 | summing a `$group` histogram over distinct labels counts each concern with one of those labels once |
| ConcernController.StatusBuckets | controllers/concernController.js:347-352 | pending, resolved, closed, reopened and status-less concerns partition the store |
| ConcernController.CategoryHistogram | controllers/concernController.js:355-358 | a category is listed exactly when some concern has it, its count is the number of concerns in it, and the counts add up to the number of concerns |
| ConcernController.SeverityHistogram | controllers/concernController.js:361-364 | a severity is listed exactly when some concern has it, its count is the number of concerns with it, and the counts add up to the number of concerns |
| ConcernController.CategoryHistogramTotal | controllers/concernController.js:355-358 | the category counts add up to the number of concerns |
| ConcernController.SeverityHistogramTotal | controllers/concernController.js:361-364 | the severity counts add up to the number of concerns |
| ConcernController.GetConcernStats | controllers/concernController.js:345-384 | the total is the number of concerns; pending, resolved and closed are the sizes of the sets of concerns in the four open statuses, in `Resolved` and in `Closed`, which is how the handler counts them; the independent fact is that they fall short of the total by exactly the reopened and status-less concerns (`StatusBuckets`); each histogram lists exactly the labels present, with the number of concerns carrying each |
| Ordering.InsertAscending | controllers/chatController.js:35 | inserting an item into an oldest-first list adds exactly that item and keeps the list oldest first |
| Ordering.InsertDescending | controllers/concernController.js:91-94 | inserting an id into a newest-first list adds exactly that id and keeps the list newest first |
| ChatController.AccessByRole | controllers/chatController.js:21-31 | admins always have chat access, a mentor only as the assignee, a student as owner or assignee; an unassigned concern shuts out every mentor |
| ChatController.ThreadOf | controllers/chatController.js:33 | the thread holds exactly the stored messages of that concern |
| ChatController.SortOldestFirst | controllers/chatController.js:35 | sorting keeps exactly the same messages and orders them by ascending creation time |
| ChatController.GetMessages | controllers/chatController.js:8-49 | NotFound exactly for a well-formed id naming no concern, Forbidden exactly without access; otherwise exactly that concern's messages, oldest first |
| ChatController.SendMessage | controllers/chatController.js:54-112 | succeeds exactly when the concern exists, access is granted, the id is fresh and the text is valid; on success exactly one message is appended (actor, concern, unread) with earlier messages unchanged, and one `new-message` goes to the concern's room; otherwise nothing changes or is emitted |
| ChatController.SendPreservesInv | controllers/chatController.js:81-98 | sending keeps every message well formed and message ids distinct, and the new message reaches exactly the sockets in the concern's room once the bus is up |
| ChatController.MarkAll | controllers/chatController.js:121-131 | exactly the unread messages of the concern sent by someone else become read at the given time; every other message is unchanged |
| ChatController.MarkAsRead | controllers/chatController.js:117-144 | Ok for every well-formed concern id, existing or not, and emits nothing; a matching message becomes read at the given time with every other field kept, and every other message is unchanged |
| ChatController.MarkAsReadIdempotent | controllers/chatController.js:121-131 | a second call changes nothing, and a read time once set is never overwritten |
| ChatController.MarkAsReadEmptyThread | controllers/chatController.js:117-135 | with no message in the thread, even for a missing concern, the call succeeds and changes nothing |
| ChatController.MarkAsReadPreservesInv | controllers/chatController.js:121-131 | marking as read keeps every stored message well formed |
| UserController.GetAllUsers | controllers/userController.js:6-36 | a user is listed exactly when every present filter holds: role, campus, and name-or-email search |
| UserController.GetUserById | controllers/userController.js:41-63 | the stored user, or NotFound exactly when a well-formed id names no user |
| UserController.UpdateUser | controllers/userController.js:68-109 | Forbidden exactly when the actor is neither the target nor an admin, checked before existence; NotFound exactly for a permitted missing target; on success only the non-empty fields among name, phone, batch and campus change |
| UserController.UpdateUserIdempotent | controllers/userController.js:90-95 | repeating an update changes nothing more, and an empty form changes nothing |
| UserController.DeleteUser | controllers/userController.js:114-138 | NotFound exactly for a well-formed id naming no user; otherwise exactly that user is removed |
| UserController.ToggleUserStatus | controllers/userController.js:143-169 | NotFound exactly for a well-formed id naming no user; otherwise only the target's active flag is negated |
| UserController.ToggleInvolution | controllers/userController.js:154 | toggling twice restores the store |
| UserController.UserHandlersPreserveInv | controllers/userController.js:80-95 | updating, deleting and toggling users keep every user filed under its own id |
| Routes.FindRoute | routes/concernRoutes.js:17-29 | the entry found is the first whose verb and path match, literals compared in any letter case; none is found only when no entry matches |
| Routes.Resolve | routes/concernRoutes.js:18-29 | a request reaches a handler exactly through the first matching entry, when that entry admits the actor's role, and is Forbidden when it does not; no actor gives Unauthenticated |
| Routes.GateHolds | routes/concernRoutes.js:18-29 | a handler whose every entry lists roles is reached only by those roles, whatever path is requested |
| Routes.StudentOnlyConcernGates | routes/concernRoutes.js:21-29 | only students reach creation and rating |
| Routes.StaffOnlyStatusGate | routes/concernRoutes.js:27 | only mentors, admins and superadmins reach the status update |
| Routes.AdminOnlyConcernGates | routes/concernRoutes.js:18-28 | only admins and superadmins reach assignment, deletion and statistics |
| Routes.AdminOnlyUserGates | routes/userRoutes.js:13-17 | only admins and superadmins reach the user listing, deletion and toggle |
| Routes.CreateEndpoint | routes/concernRoutes.js:21 | `POST /` reaches creation for a student and is Forbidden for every other role |
| Routes.RateEndpoint | routes/concernRoutes.js:29 | `PUT /:id/rate`, in any letter case, reaches rating for a student and is Forbidden otherwise |
| Routes.StatusEndpoint | routes/concernRoutes.js:27 | `PUT /:id/status`, in any letter case, reaches the status update for staff roles and is Forbidden for students |
| Routes.AdminConcernEndpoints | routes/concernRoutes.js:24-28 | assignment (its literal in any letter case) and deletion are reached by admins and are Forbidden otherwise |
| Routes.OpenConcernEndpoints | routes/concernRoutes.js:22-23 | listing, and lookup of any id that is not `stats` in some letter case, are reached by every role |
| Routes.StatsShadowsId | routes/concernRoutes.js:18-23 | `GET /stats` in any letter case never reaches lookup by id, because the statistics entry is registered first |
| Routes.AdminUserEndpoints | routes/userRoutes.js:13-16 | user listing and deletion are reached by admins and are Forbidden otherwise |
| Routes.ToggleEndpoint | routes/userRoutes.js:17 | the toggle, its literal in any letter case, is reached by admins and is Forbidden otherwise |
| Routes.OpenUserEndpoints | routes/userRoutes.js:14-15 | user lookup and update are reached by every role |
| Routes.ChatEndpointsUngated | routes/chatRoutes.js:8-10 | every chat endpoint is reached by every authenticated role, so chat access is decided in the controller |
| Scenarios.Lifecycle | controllers/concernController.js:9-311 | create, assign, resolve and rate all succeed in turn, and the timeline reads Submitted, Assigned, Resolved |
| Scenarios.TicketCollisionAfterDelete | models/Concern.js:111-117 | create two, delete the first, create again: the third creation draws a taken number and is refused with nothing stored |
| Scenarios.SearchIsSubstring | controllers/concernController.js:84-89 | the search is a substring match: `BRT00001` matches `BRT000010` but not `BRT000001` |
| Scenarios.RatingNeedsStudentOwner | routes/concernRoutes.js:29 | the route gate plus the ownership check mean only a student rating their own concern succeeds |
| Scenarios.UnassignedMentorClosesConcern | controllers/concernController.js:151-174 | a mentor who is not assigned, and so has no chat access, still reaches the status handler and can close the concern |
| Scenarios.DeletedOwnerBreaksStudentRead | controllers/concernController.js:115-128 | after the owner is deleted, a student reading the concern makes the handler fail |
| Scenarios.StatuslessUpdate | controllers/concernController.js:151-199 | a status update without a status succeeds, leaves the concern without a status, tells its room, drops it from every status bucket, and makes it unrateable |
| Scenarios.SentMessageIsRead | controllers/chatController.js:81-98 | a sent message shows up in the owner's thread as the newest one |

## Left out

- E-mail (`services/emailService.js`): every send swallows its own errors and never fails a request, so the mailer is not part of any outcome.
- `server.js`, `seedAdmin.js` and `routes/authRoutes.js`: process wiring, a one-shot script and login. The authentication and upload middleware are not part of this model: `protect` is taken to accept exactly a request with an actor, and `authorize(...)` to admit exactly the roles it lists.
- `models/User.js` is not part of this model. Users keep only the fields the controllers read or write, and a user save is taken to succeed.
- Mongoose `populate`, `select('-password')`, `getPublicProfile` and `updatedAt`: they only shape or decorate the reply. The one effect of `populate` that matters, the failed read of a concern whose owner was deleted, is modelled.
- The regular expression of `search`: it is modelled as a literal substring. Patterns with regex metacharacters, Unicode case folding and UTF-16 lengths are not modelled; whitespace is a fixed set of characters and case folding covers the ASCII letters only.
- Casting of multipart form fields (`isAnonymous: "false"`): the form is taken as already typed.
- Concurrency: the count-then-number race and last-write-wins updates. Requests run one at a time.
- The `$sort` by count of the statistics: histograms are modelled as maps from label to count.
- Multer's file limits and attachment contents: attachments are opaque lists of metadata.
- Clock, fresh `_id`s and socket ids are parameters of the handlers.
- Casting ids to ObjectIds: ids are taken to be well formed. No handler validates an id, so in the program a malformed id (`GET /api/concerns/abc`, a `mentorId` of `"x"`) makes `findById`, `Chat.find` or `Chat.updateMany` throw a cast error and the handler's catch block answer 500. The model answers NotFound, or Ok for `markAsRead`, instead. Which strings the cast accepts depends on the ODM library's version, which is not part of this model.
- ChatController.MarkAsRead: Ok is promised only for a well-formed concern id; a malformed one is a 500 in the program.
- UserController.GetUserById: NotFound stands for a well-formed id that names no user; a malformed id is a 500 in the program, as in every other handler that looks up an id.
- The Socket.IO transport and the connection lifecycle: only room membership and who receives which event are modelled. `Realtime.Disconnect` models the transport dropping the socket from its rooms, not code in `services/socketService.js`.
- ChatController.SortOldestFirst: messages with equal creation times keep their stored order; the datastore's order for ties is not specified, so the contract states only the multiset and the ascending order.
- Routes.FindRoute: case folding covers the ASCII letters only, and trailing slashes and URL decoding are not modelled.
- Ordering.InsertDescending: concerns with equal creation times may appear in any order among themselves.
