/** The routers of `routes/concernRoutes.js`, `routes/userRoutes.js` and
    `routes/chatRoutes.js` as tables: each entry has a verb, a path pattern,
    the roles its `authorize(...)` admits (none listed means any
    authenticated actor) and its handler. Every entry is behind `protect`,
    which refuses a request without an actor. Express tries the entries in
    registration order and the first whose verb and path match answers; a
    router matches literal path segments without regard to case. */
module Routes {
  import opened Domain
  import opened Text

  datatype Verb = Get | Post | Put | Delete

  /** A path segment pattern: a literal, matched ignoring case, or a `:param`
      that matches any non-empty segment. */
  datatype Segment = Lit(text: string) | Param

  datatype Handler =
    | CreateConcernH | GetAllConcernsH | GetConcernByIdH | UpdateConcernStatusH
    | AssignConcernH | RateConcernH | DeleteConcernH | GetConcernStatsH
    | GetAllUsersH | GetUserByIdH | UpdateUserH | DeleteUserH | ToggleUserStatusH
    | GetMessagesH | SendMessageH | MarkAsReadH

  /** `roles == None` when the entry has no `authorize` step. */
  datatype Route = Route(verb: Verb, pattern: seq<Segment>, roles: Option<set<Role>>, handler: Handler)

  const AdminRoles: set<Role> := {Admin, SuperAdmin}
  const StaffRoles: set<Role> := {Mentor, Admin, SuperAdmin}

  /** The concern router, in registration order. */
  const ConcernRoutes: seq<Route> := [
    Route(Get, [Lit("stats")], Some(AdminRoles), GetConcernStatsH),
    Route(Post, [], Some({Student}), CreateConcernH),
    Route(Get, [], None, GetAllConcernsH),
    Route(Get, [Param], None, GetConcernByIdH),
    Route(Delete, [Param], Some(AdminRoles), DeleteConcernH),
    Route(Put, [Param, Lit("status")], Some(StaffRoles), UpdateConcernStatusH),
    Route(Put, [Param, Lit("assign")], Some(AdminRoles), AssignConcernH),
    Route(Put, [Param, Lit("rate")], Some({Student}), RateConcernH)
  ]

  /** The user router, in registration order. */
  const UserRoutes: seq<Route> := [
    Route(Get, [], Some(AdminRoles), GetAllUsersH),
    Route(Get, [Param], None, GetUserByIdH),
    Route(Put, [Param], None, UpdateUserH),
    Route(Delete, [Param], Some(AdminRoles), DeleteUserH),
    Route(Put, [Param, Lit("toggle-status")], Some(AdminRoles), ToggleUserStatusH)
  ]

  /** The chat router: no `authorize` step at all. */
  const ChatRoutes: seq<Route> := [
    Route(Get, [Param], None, GetMessagesH),
    Route(Post, [Param], None, SendMessageH),
    Route(Put, [Param, Lit("read")], None, MarkAsReadH)
  ]

  predicate SegmentMatches(seg: Segment, part: string) {
    match seg
    case Lit(t) => Lower(part) == Lower(t)
    case Param => part != ""
  }

  predicate PathMatches(pattern: seq<Segment>, parts: seq<string>) {
    |pattern| == |parts| && forall i :: 0 <= i < |parts| ==> SegmentMatches(pattern[i], parts[i])
  }

  predicate Matches(r: Route, verb: Verb, parts: seq<string>) {
    r.verb == verb && PathMatches(r.pattern, parts)
  }

  /** The position of the first entry matching the request, if any. */
  function FindRoute(routes: seq<Route>, verb: Verb, parts: seq<string>): (r: Option<nat>)
    ensures r.Some? ==> r.value < |routes| && Matches(routes[r.value], verb, parts)
    ensures r.Some? ==> forall i :: 0 <= i < r.value ==> !Matches(routes[i], verb, parts)
    ensures r.None? ==> forall i :: 0 <= i < |routes| ==> !Matches(routes[i], verb, parts)
  {
    if routes == [] then None
    else if Matches(routes[0], verb, parts) then Some(0)
    else match FindRoute(routes[1..], verb, parts)
      case None => None
      case Some(i) => Some(i + 1)
  }

  /** How routing a request ends. */
  datatype Dispatch = NoRoute | Refused(code: Code) | Reached(handler: Handler)

  /** `authorize(...roles)` admits exactly the listed roles. */
  predicate Admits(roles: Option<set<Role>>, role: Role) {
    roles.None? || role in roles.value
  }

  /** Routes a request by an actor with role `actor` (`None` when the request
      carries no valid credentials): the first matching entry decides, `protect`
      refuses a missing actor, then `authorize` refuses a role it does not list. */
  function Resolve(routes: seq<Route>, verb: Verb, parts: seq<string>, actor: Option<Role>): (r: Dispatch)
    ensures r == NoRoute <==> FindRoute(routes, verb, parts).None?
    ensures r.Refused? ==> r.code == Unauthenticated || r.code == Forbidden
    ensures r == Refused(Unauthenticated) <==> FindRoute(routes, verb, parts).Some? && actor.None?
    ensures r.Reached? ==>
      && FindRoute(routes, verb, parts).Some?
      && var e := routes[FindRoute(routes, verb, parts).value];
      && e.handler == r.handler && actor.Some? && Admits(e.roles, actor.value)
    ensures FindRoute(routes, verb, parts).Some? && actor.Some? ==>
      && var e := routes[FindRoute(routes, verb, parts).value];
      && (Admits(e.roles, actor.value) ==> r == Reached(e.handler))
      && (!Admits(e.roles, actor.value) ==> r == Refused(Forbidden))
  {
    match FindRoute(routes, verb, parts)
    case None => NoRoute
    case Some(i) =>
      if actor.None? then Refused(Unauthenticated)
      else if !Admits(routes[i].roles, actor.value) then Refused(Forbidden)
      else Reached(routes[i].handler)
  }

  /** The entry at `i` is the first that matches, so it is the one found. */
  lemma {:induction false} FirstMatch(routes: seq<Route>, verb: Verb, parts: seq<string>, i: nat)
    requires i < |routes| && Matches(routes[i], verb, parts)
    requires forall j :: 0 <= j < i ==> !Matches(routes[j], verb, parts)
    ensures FindRoute(routes, verb, parts) == Some(i)
    decreases i
  {
    if i > 0 {
      assert !Matches(routes[0], verb, parts);
      FirstMatch(routes[1..], verb, parts, i - 1);
    }
  }

  /** Every entry of the table that leads to `h` admits only roles in `roles`. */
  predicate GatedTo(routes: seq<Route>, h: Handler, roles: set<Role>) {
    forall i :: 0 <= i < |routes| && routes[i].handler == h ==> routes[i].roles.Some? && routes[i].roles.value <= roles
  }

  /** Whatever path is requested, a request that reaches a gated handler comes
      from one of the admitted roles. */
  lemma GateHolds(routes: seq<Route>, h: Handler, roles: set<Role>, verb: Verb, parts: seq<string>, actor: Option<Role>)
    requires GatedTo(routes, h, roles)
    ensures Resolve(routes, verb, parts, actor) == Reached(h) ==> actor.Some? && actor.value in roles
  {
    if Resolve(routes, verb, parts, actor) == Reached(h) {
      var i := FindRoute(routes, verb, parts).value;
      assert routes[i].handler == h;
    }
  }

  /** Only students reach `createConcern` and `rateConcern`. */
  lemma StudentOnlyConcernGates(verb: Verb, parts: seq<string>, actor: Option<Role>)
    ensures var d := Resolve(ConcernRoutes, verb, parts, actor);
      (d == Reached(CreateConcernH) || d == Reached(RateConcernH)) ==> actor == Some(Student)
  {
    assert GatedTo(ConcernRoutes, CreateConcernH, {Student});
    assert GatedTo(ConcernRoutes, RateConcernH, {Student});
    GateHolds(ConcernRoutes, CreateConcernH, {Student}, verb, parts, actor);
    GateHolds(ConcernRoutes, RateConcernH, {Student}, verb, parts, actor);
  }

  /** Only mentors, admins and superadmins reach `updateConcernStatus`. */
  lemma StaffOnlyStatusGate(verb: Verb, parts: seq<string>, actor: Option<Role>)
    ensures Resolve(ConcernRoutes, verb, parts, actor) == Reached(UpdateConcernStatusH) ==>
      actor.Some? && actor.value != Student
  {
    assert GatedTo(ConcernRoutes, UpdateConcernStatusH, StaffRoles);
    GateHolds(ConcernRoutes, UpdateConcernStatusH, StaffRoles, verb, parts, actor);
  }

  /** Only admins and superadmins reach `assignConcern`, `deleteConcern` and
      `getConcernStats`. */
  lemma AdminOnlyConcernGates(verb: Verb, parts: seq<string>, actor: Option<Role>)
    ensures var d := Resolve(ConcernRoutes, verb, parts, actor);
      (d == Reached(AssignConcernH) || d == Reached(DeleteConcernH) || d == Reached(GetConcernStatsH))
        ==> actor.Some? && IsAdmin(actor.value)
  {
    assert GatedTo(ConcernRoutes, AssignConcernH, AdminRoles);
    assert GatedTo(ConcernRoutes, DeleteConcernH, AdminRoles);
    assert GatedTo(ConcernRoutes, GetConcernStatsH, AdminRoles);
    GateHolds(ConcernRoutes, AssignConcernH, AdminRoles, verb, parts, actor);
    GateHolds(ConcernRoutes, DeleteConcernH, AdminRoles, verb, parts, actor);
    GateHolds(ConcernRoutes, GetConcernStatsH, AdminRoles, verb, parts, actor);
  }

  /** Only admins and superadmins reach `getAllUsers`, `deleteUser` and
      `toggleUserStatus`. */
  lemma AdminOnlyUserGates(verb: Verb, parts: seq<string>, actor: Option<Role>)
    ensures var d := Resolve(UserRoutes, verb, parts, actor);
      (d == Reached(GetAllUsersH) || d == Reached(DeleteUserH) || d == Reached(ToggleUserStatusH))
        ==> actor.Some? && IsAdmin(actor.value)
  {
    assert GatedTo(UserRoutes, GetAllUsersH, AdminRoles);
    assert GatedTo(UserRoutes, DeleteUserH, AdminRoles);
    assert GatedTo(UserRoutes, ToggleUserStatusH, AdminRoles);
    GateHolds(UserRoutes, GetAllUsersH, AdminRoles, verb, parts, actor);
    GateHolds(UserRoutes, DeleteUserH, AdminRoles, verb, parts, actor);
    GateHolds(UserRoutes, ToggleUserStatusH, AdminRoles, verb, parts, actor);
  }

  /** The outcome of a request whose first matching entry is the one at `i`. */
  lemma ResolvedAt(routes: seq<Route>, verb: Verb, parts: seq<string>, actor: Option<Role>, i: nat)
    requires i < |routes| && Matches(routes[i], verb, parts)
    requires forall j :: 0 <= j < i ==> !Matches(routes[j], verb, parts)
    ensures Resolve(routes, verb, parts, actor) ==
      if actor.None? then Refused(Unauthenticated)
      else if Admits(routes[i].roles, actor.value) then Reached(routes[i].handler)
      else Refused(Forbidden)
  {
    FirstMatch(routes, verb, parts, i);
  }

  /** The literals of the tables are lower-case, so a path segment matches one
      exactly when it lower-cases to it. */
  lemma LiteralsLowercase()
    ensures Lower("stats") == "stats" && Lower("status") == "status" && Lower("assign") == "assign"
    ensures Lower("rate") == "rate" && Lower("read") == "read" && Lower("toggle-status") == "toggle-status"
  {
    LowerOfLowercase("stats");
    LowerOfLowercase("status");
    LowerOfLowercase("assign");
    LowerOfLowercase("rate");
    LowerOfLowercase("read");
    LowerOfLowercase("toggle-status");
  }

  /** `POST /` admits students only. */
  lemma CreateEndpoint(role: Role)
    ensures Resolve(ConcernRoutes, Post, [], Some(role))
            == if role == Student then Reached(CreateConcernH) else Refused(Forbidden)
  {
    ResolvedAt(ConcernRoutes, Post, [], Some(role), 1);
  }

  /** `PUT /:id/rate`, in any letter case, admits students only. */
  lemma RateEndpoint(role: Role, id: string, action: string)
    requires id != "" && Lower(action) == "rate"
    ensures Resolve(ConcernRoutes, Put, [id, action], Some(role))
            == if role == Student then Reached(RateConcernH) else Refused(Forbidden)
  {
    LiteralsLowercase();
    assert !SegmentMatches(ConcernRoutes[5].pattern[1], [id, action][1]);
    assert !SegmentMatches(ConcernRoutes[6].pattern[1], [id, action][1]);
    ResolvedAt(ConcernRoutes, Put, [id, action], Some(role), 7);
  }

  /** `PUT /:id/status`, in any letter case, admits mentors, admins and
      superadmins. */
  lemma StatusEndpoint(role: Role, id: string, action: string)
    requires id != "" && Lower(action) == "status"
    ensures Resolve(ConcernRoutes, Put, [id, action], Some(role))
            == if role in StaffRoles then Reached(UpdateConcernStatusH) else Refused(Forbidden)
  {
    LiteralsLowercase();
    ResolvedAt(ConcernRoutes, Put, [id, action], Some(role), 5);
  }

  /** `PUT /:id/assign` (in any letter case) and `DELETE /:id` admit admins
      and superadmins. */
  lemma AdminConcernEndpoints(role: Role, id: string, action: string)
    requires id != "" && Lower(action) == "assign"
    ensures Resolve(ConcernRoutes, Put, [id, action], Some(role))
            == if IsAdmin(role) then Reached(AssignConcernH) else Refused(Forbidden)
    ensures Resolve(ConcernRoutes, Delete, [id], Some(role))
            == if IsAdmin(role) then Reached(DeleteConcernH) else Refused(Forbidden)
  {
    LiteralsLowercase();
    assert Lower(action)[0] != Lower("status")[0];
    assert !SegmentMatches(ConcernRoutes[5].pattern[1], [id, action][1]);
    ResolvedAt(ConcernRoutes, Put, [id, action], Some(role), 6);
    ResolvedAt(ConcernRoutes, Delete, [id], Some(role), 4);
  }

  /** Listing, and lookup by any id that is not `stats` in some letter case,
      admit every authenticated role. */
  lemma OpenConcernEndpoints(role: Role, id: string)
    requires id != "" && Lower(id) != "stats"
    ensures Resolve(ConcernRoutes, Get, [], Some(role)) == Reached(GetAllConcernsH)
    ensures Resolve(ConcernRoutes, Get, [id], Some(role)) == Reached(GetConcernByIdH)
  {
    LiteralsLowercase();
    ResolvedAt(ConcernRoutes, Get, [], Some(role), 2);
    assert !SegmentMatches(ConcernRoutes[0].pattern[0], [id][0]);
    ResolvedAt(ConcernRoutes, Get, [id], Some(role), 3);
  }

  /** `/stats` is registered before `/:id`: a GET of `/stats`, in any letter
      case, never reaches `getConcernById`, whatever the role; non-admins get
      `Forbidden`. */
  lemma StatsShadowsId(part: string, actor: Option<Role>)
    requires Lower(part) == "stats"
    ensures Resolve(ConcernRoutes, Get, [part], actor) != Reached(GetConcernByIdH)
    ensures actor.Some? ==>
      (Resolve(ConcernRoutes, Get, [part], actor)
         == if IsAdmin(actor.value) then Reached(GetConcernStatsH) else Refused(Forbidden))
  {
    LiteralsLowercase();
    ResolvedAt(ConcernRoutes, Get, [part], actor, 0);
  }

  /** Listing and deletion of users admit admins and superadmins. */
  lemma AdminUserEndpoints(role: Role, id: string)
    requires id != ""
    ensures Resolve(UserRoutes, Get, [], Some(role))
            == if IsAdmin(role) then Reached(GetAllUsersH) else Refused(Forbidden)
    ensures Resolve(UserRoutes, Delete, [id], Some(role))
            == if IsAdmin(role) then Reached(DeleteUserH) else Refused(Forbidden)
  {
    ResolvedAt(UserRoutes, Get, [], Some(role), 0);
    ResolvedAt(UserRoutes, Delete, [id], Some(role), 3);
  }

  /** `PUT /:id/toggle-status`, in any letter case, admits admins and
      superadmins. */
  lemma ToggleEndpoint(role: Role, id: string, action: string)
    requires id != "" && Lower(action) == "toggle-status"
    ensures Resolve(UserRoutes, Put, [id, action], Some(role))
            == if IsAdmin(role) then Reached(ToggleUserStatusH) else Refused(Forbidden)
  {
    LiteralsLowercase();
    ResolvedAt(UserRoutes, Put, [id, action], Some(role), 4);
  }

  /** Lookup and update of a user admit every role; who may update whom is
      decided in the controller. */
  lemma OpenUserEndpoints(role: Role, id: string)
    requires id != ""
    ensures Resolve(UserRoutes, Get, [id], Some(role)) == Reached(GetUserByIdH)
    ensures Resolve(UserRoutes, Put, [id], Some(role)) == Reached(UpdateUserH)
  {
    ResolvedAt(UserRoutes, Get, [id], Some(role), 1);
    ResolvedAt(UserRoutes, Put, [id], Some(role), 2);
  }

  /** The chat endpoints admit every authenticated role, so access to a thread
      is decided by the controller alone. */
  lemma ChatEndpointsUngated(role: Role, id: string, action: string)
    requires id != "" && Lower(action) == "read"
    ensures Resolve(ChatRoutes, Get, [id], Some(role)) == Reached(GetMessagesH)
    ensures Resolve(ChatRoutes, Post, [id], Some(role)) == Reached(SendMessageH)
    ensures Resolve(ChatRoutes, Put, [id, action], Some(role)) == Reached(MarkAsReadH)
    ensures Resolve(ChatRoutes, Get, [id], None) == Refused(Unauthenticated)
  {
    LiteralsLowercase();
    ResolvedAt(ChatRoutes, Get, [id], Some(role), 0);
    ResolvedAt(ChatRoutes, Get, [id], None, 0);
    ResolvedAt(ChatRoutes, Post, [id], Some(role), 1);
    ResolvedAt(ChatRoutes, Put, [id, action], Some(role), 2);
  }
}
