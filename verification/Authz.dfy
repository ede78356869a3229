/** Who may do what in which workspace: three resolvers of one policy, the run view used by
    the streams, and the two encodings of run visibility. */
module Authz {
  import opened Options
  import opened Membership

  /** `scope` and `ceiling` are a token's; a session has neither. User 0 is the anonymous
      administrator of an open deployment. */
  datatype Principal = Principal(user: nat, globalAdmin: bool, scope: Option<nat>, ceiling: Option<Role>)

  /** `ownOnly`: `run_visibility == "own"`. */
  datatype Space = Space(ownOnly: bool)

  /** Workspaces, memberships, each user's personal workspace, and the shared default. */
  datatype Directory = Directory(spaces: map<nat, Space>, rows: seq<Row>, personal: map<nat, nat>, shared: nat)

  datatype Run = Run(ws: Option<nat>, creator: Option<nat>)

  datatype Refusal = NoSuchWorkspace | OutOfScope | NotAMember | RoleTooLow

  datatype Access = Granted(ws: nat, role: Role) | Refused(why: Refusal)

  /** Foreign keys, and uniqueness of memberships. */
  ghost predicate Valid(d: Directory) {
    && Unique(d.rows) && d.shared in d.spaces
    && (forall u :: u in d.personal ==> d.personal[u] in d.spaces)
    && (forall r :: r in d.rows ==> r.ws in d.spaces)
  }

  // ---- the policy ------------------------------------------------------------------------

  function Cap(p: Principal, role: Role): Role {
    if p.ceiling.Some? && Rank(role) > Rank(p.ceiling.value) then p.ceiling.value else role
  }

  function RoleIn(d: Directory, p: Principal, ws: nat): Option<Role> {
    if p.globalAdmin then Some(Admin)
    else if Lookup(d.rows, ws, p.user).Some? then Some(Lookup(d.rows, ws, p.user).value.role)
    else None
  }

  function Decide(d: Directory, p: Principal, ws: nat, minRole: Role): Access {
    if ws !in d.spaces then Refused(NoSuchWorkspace)
    else if p.scope.Some? && p.scope.value != ws then Refused(OutOfScope)
    else
      var role := RoleIn(d, p, ws);
      if role.None? then Refused(NotAMember)
      else if Rank(Cap(p, role.value)) < Rank(minRole) then Refused(RoleTooLow)
      else Granted(ws, Cap(p, role.value))
  }

  /** A role neither the membership nor the token exceeds. */
  predicate Holds(d: Directory, p: Principal, ws: nat, role: Role) {
    && ws in d.spaces && (p.scope.Some? ==> p.scope.value == ws)
    && (p.globalAdmin || (Lookup(d.rows, ws, p.user).Some? && Rank(role) <= Rank(Lookup(d.rows, ws, p.user).value.role)))
    && (p.ceiling.Some? ==> Rank(role) <= Rank(p.ceiling.value))
  }

  /** Access is granted iff the principal holds the required role there, and the role granted is
      the highest one it holds. */
  lemma GrantedIff(d: Directory, p: Principal, ws: nat, minRole: Role)
    ensures Decide(d, p, ws, minRole).Granted? <==> Holds(d, p, ws, minRole)
    ensures Decide(d, p, ws, minRole).Granted? ==>
              var granted := Decide(d, p, ws, minRole);
              granted.ws == ws && Holds(d, p, ws, granted.role)
              && forall role :: Holds(d, p, ws, role) ==> Rank(role) <= Rank(granted.role)
  {
  }

  /** Why access is refused: the workspace does not exist, the token is bound to another one,
      the principal is neither a member nor a global administrator, or only the role is short;
      each in this order of precedence. */
  lemma RefusedIff(d: Directory, p: Principal, ws: nat, minRole: Role)
    ensures Decide(d, p, ws, minRole) == Refused(NoSuchWorkspace) <==> ws !in d.spaces
    ensures Decide(d, p, ws, minRole) == Refused(OutOfScope) <==> ws in d.spaces && p.scope.Some? && p.scope != Some(ws)
    ensures Decide(d, p, ws, minRole) == Refused(NotAMember)
       <==> ws in d.spaces && (p.scope.None? || p.scope == Some(ws)) && !p.globalAdmin && Lookup(d.rows, ws, p.user).None?
    ensures Decide(d, p, ws, minRole) == Refused(RoleTooLow)
       <==> ws in d.spaces && (p.scope.None? || p.scope == Some(ws))
            && (p.globalAdmin || Lookup(d.rows, ws, p.user).Some?) && !Holds(d, p, ws, minRole)
  {
  }

  // ---- a request that names no workspace -------------------------------------------------

  /** The workspace a request without one falls back to; `newId` is the id a personal workspace
      gets if it has to be created, with its owner as an administrator. */
  function WithPersonal(d: Directory, user: nat, newId: nat): Directory {
    if user == 0 || user in d.personal then d
    else d.(spaces := d.spaces[newId := Space(false)],
            rows := d.rows + [Row(newId, user, Admin, Manual)],
            personal := d.personal[user := newId])
  }

  function Fallback(d: Directory, user: nat, newId: nat): nat {
    if user == 0 then d.shared else if user in d.personal then d.personal[user] else newId
  }

  /** `active_workspace`: what it leaves in the directory and what it answers. */
  function Active(d: Directory, p: Principal, id: Option<nat>, minRole: Role, newId: nat): (Directory, Access) {
    var named := if id.None? then p.scope else id;
    if named.Some? then (d, Decide(d, p, named.value, minRole))
    else
      (WithPersonal(d, p.user, newId),
       if Rank(Cap(p, Admin)) < Rank(minRole) then Refused(RoleTooLow)
       else Granted(Fallback(d, p.user, newId), Cap(p, Admin)))
  }

  // ---- runs ------------------------------------------------------------------------------

  /** `_get_run_or_404` in a resolved context. */
  predicate Fetchable(d: Directory, p: Principal, ctx: Access, run: Run)
    requires ctx.Granted? && ctx.ws in d.spaces
  {
    && run.ws == Some(ctx.ws)
    && (d.spaces[ctx.ws].ownOnly && ctx.role != Admin && !p.globalAdmin ==> MayBeOwn(p, run))
  }

  /** The run's creator is the principal, or unknown (a missing or zero id). */
  predicate MayBeOwn(p: Principal, run: Run) {
    run.creator.None? || run.creator.value == 0 || run.creator.value == p.user
  }

  /** The caller may have the run in its lists. */
  predicate Shown(d: Directory, p: Principal, ctx: Access, run: Run)
    requires ctx.Granted? && ctx.ws in d.spaces
  {
    d.spaces[ctx.ws].ownOnly && ctx.role != Admin && !p.globalAdmin ==> run.creator == Some(p.user)
  }

  /** The runs of the context's workspace that a listing returns. */
  predicate Listed(d: Directory, p: Principal, ctx: Access, run: Run)
    requires ctx.Granted? && ctx.ws in d.spaces
  {
    run.ws == Some(ctx.ws) && Shown(d, p, ctx, run)
  }

  /** What `authorize_run_view` promises: membership and the workspace's visibility policy. */
  predicate MayView(d: Directory, p: Principal, run: Run) {
    && run.ws.Some? && run.ws.value in d.spaces && (p.scope.Some? ==> p.scope == run.ws)
    && (p.globalAdmin
        || (Lookup(d.rows, run.ws.value, p.user).Some?
            && (d.spaces[run.ws.value].ownOnly && Cap(p, Lookup(d.rows, run.ws.value, p.user).value.role) != Admin
                ==> MayBeOwn(p, run))))
  }

  // ---- the resolvers as written ----------------------------------------------------------

  class AccessControl {
    var dir: Directory

    constructor (dir: Directory)
      ensures this.dir == dir
    {
      this.dir := dir;
    }

    method ActiveWorkspace(id: Option<nat>, p: Principal, minRole: Role, newId: nat) returns (a: Access)
      modifies this
      ensures (dir, a) == Active(old(dir), p, id, minRole, newId)
    {
      var wanted := id;
      if wanted.None? && p.scope.Some? {
        wanted := p.scope;
      }
      var ws, role;
      if wanted.None? {
        ws, role := DefaultWorkspaceFor(p, newId);
      } else {
        ws := wanted.value;
        if ws !in dir.spaces {
          return Refused(NoSuchWorkspace);
        }
        if p.scope.Some? && p.scope != wanted {
          return Refused(OutOfScope);
        }
        if p.globalAdmin {
          role := Admin;
        } else {
          var membership := Lookup(dir.rows, ws, p.user);
          if membership.None? {
            return Refused(NotAMember);
          }
          role := membership.value.role;
        }
      }
      if p.ceiling.Some? && Rank(role) > Rank(p.ceiling.value) {
        role := p.ceiling.value;
      }
      if Rank(role) < Rank(minRole) {
        return Refused(RoleTooLow);
      }
      a := Granted(ws, role);
    }

    method DefaultWorkspaceFor(p: Principal, newId: nat) returns (ws: nat, role: Role)
      modifies this
      ensures dir == WithPersonal(old(dir), p.user, newId)
      ensures ws == Fallback(old(dir), p.user, newId) && role == Admin
    {
      if p.user != 0 {
        if p.user in dir.personal {
          return dir.personal[p.user], Admin;
        }
        dir := dir.(spaces := dir.spaces[newId := Space(false)]);
        dir := dir.(rows := dir.rows + [Row(newId, p.user, Admin, Manual)]);
        dir := dir.(personal := dir.personal[p.user := newId]);
        return newId, Admin;
      }
      return dir.shared, Admin;
    }

    method AuthorizeWorkspaceRole(p: Principal, ws: nat, minRole: Role) returns (a: Access)
      ensures a == Decide(dir, p, ws, minRole)
    {
      if ws !in dir.spaces {
        return Refused(NoSuchWorkspace);
      }
      if p.scope.Some? && p.scope.value != ws {
        return Refused(OutOfScope);
      }
      var effective := Admin;
      if !p.globalAdmin {
        var membership := Lookup(dir.rows, ws, p.user);
        if membership.None? {
          return Refused(NotAMember);
        }
        effective := membership.value.role;
      }
      if p.ceiling.Some? && Rank(effective) > Rank(p.ceiling.value) {
        effective := p.ceiling.value;
      }
      if Rank(effective) < Rank(minRole) {
        return Refused(RoleTooLow);
      }
      a := Granted(ws, effective);
    }

    method RequireWorkspace(ws: nat, p: Principal, minRole: Role) returns (a: Access)
      ensures a == Decide(dir, p, ws, minRole)
    {
      var known := ws in dir.spaces;
      if !known {
        return Refused(NoSuchWorkspace);
      }
      if p.scope.Some? && p.scope.value != ws {
        return Refused(OutOfScope);
      }
      var effective: Role;
      if p.globalAdmin {
        effective := Admin;
      } else {
        var membership := Lookup(dir.rows, ws, p.user);
        if membership.None? {
          return Refused(NotAMember);
        }
        effective := membership.value.role;
      }
      effective := if p.ceiling.Some? && Rank(effective) > Rank(p.ceiling.value) then p.ceiling.value else effective;
      a := if Rank(effective) < Rank(minRole) then Refused(RoleTooLow) else Granted(ws, effective);
    }

    method AuthorizeRunView(p: Principal, run: Run) returns (allowed: bool)
      ensures allowed <==> MayView(dir, p, run)
    {
      if run.ws.None? || run.ws.value !in dir.spaces {
        return false;
      }
      var ws := run.ws.value;
      if p.scope.Some? && p.scope.value != ws {
        return false;
      }
      if p.globalAdmin {
        return true;
      }
      var membership := Lookup(dir.rows, ws, p.user);
      if membership.None? {
        return false;
      }
      var role := membership.value.role;
      if p.ceiling.Some? && Rank(role) > Rank(p.ceiling.value) {
        role := p.ceiling.value;
      }
      if dir.spaces[ws].ownOnly && Rank(role) < Rank(Admin)
         && run.creator.Some? && run.creator.value != 0 && run.creator.value != p.user {
        return false;
      }
      allowed := true;
    }

    /** `_get_run_or_404`; a run that does not exist is None. */
    method GetRunOr404(run: Option<Run>, p: Principal, ctx: Access) returns (found: bool)
      requires ctx.Granted? && ctx.ws in dir.spaces
      ensures found <==> run.Some? && Fetchable(dir, p, ctx, run.value)
    {
      if run.None? || run.value.ws != Some(ctx.ws) {
        return false;
      }
      if dir.spaces[ctx.ws].ownOnly && Rank(ctx.role) < Rank(Admin) && !p.globalAdmin
         && run.value.creator.Some? && run.value.creator.value != 0 && run.value.creator.value != p.user {
        return false;
      }
      found := true;
    }

    /** `_visibility_filter`: the query, restricted to the caller's runs where the workspace
        hides those of others. */
    method VisibilityFilter(stmt: Run -> bool, p: Principal, ctx: Access) returns (restricted: Run -> bool)
      requires ctx.Granted? && ctx.ws in dir.spaces
      ensures forall run :: restricted(run) <==> stmt(run) && Shown(dir, p, ctx, run)
    {
      restricted := stmt;
      if dir.spaces[ctx.ws].ownOnly && Rank(ctx.role) < Rank(Admin) && !p.globalAdmin {
        restricted := (run: Run) => stmt(run) && run.creator == Some(p.user);
      }
    }
  }

  // ---- agreement -------------------------------------------------------------------------

  /** A token bound to a workspace is granted nothing outside it, whatever it asks for and even
      when it asks for nothing, and no token acts above its ceiling. */
  lemma TokenIsConfined(d: Directory, p: Principal, id: Option<nat>, minRole: Role, newId: nat)
    requires Active(d, p, id, minRole, newId).1.Granted?
    ensures var a := Active(d, p, id, minRole, newId).1;
            && (p.scope.Some? ==> p.scope == Some(a.ws))
            && (p.ceiling.Some? ==> Rank(a.role) <= Rank(p.ceiling.value))
            && Rank(minRole) <= Rank(a.role)
  {
  }

  /** The run view agrees with resolving the run's workspace and fetching the run there. */
  lemma RunViewIsActiveThenFetch(d: Directory, p: Principal, run: Run, newId: nat)
    requires run.ws.Some?
    ensures MayView(d, p, run) <==>
            var (after, ctx) := Active(d, p, run.ws, Viewer, newId);
            after == d && ctx.Granted? && Fetchable(after, p, ctx, run)
  {
  }

  /** A run without a workspace is nobody's: no view, and no context fetches it. */
  lemma OrphanRunIsHidden(d: Directory, p: Principal, run: Run, ctx: Access)
    requires run.ws.None? && ctx.Granted? && ctx.ws in d.spaces
    ensures !MayView(d, p, run) && !Fetchable(d, p, ctx, run)
  {
  }

  /** Every listed run can be fetched, and one that can be fetched is missing from the list iff
      the caller only sees its own runs and the run's creator is unknown. */
  lemma ListedIffFetchable(d: Directory, p: Principal, ctx: Access, run: Run)
    requires ctx.Granted? && ctx.ws in d.spaces
    ensures Listed(d, p, ctx, run) ==> Fetchable(d, p, ctx, run)
    ensures Fetchable(d, p, ctx, run) && !Listed(d, p, ctx, run) <==>
            run.ws == Some(ctx.ws) && d.spaces[ctx.ws].ownOnly && ctx.role != Admin && !p.globalAdmin
            && run.creator != Some(p.user) && run.creator.GetOr(0) == 0
  {
  }

  // ---- the fallback ----------------------------------------------------------------------

  /** Without a named workspace nothing checks the membership, so the two routes to a run of the
      caller's personal workspace can differ. */
  ghost predicate RoutesAgree(d: Directory, p: Principal, newId: nat) {
    forall run: Run :: RouteAgrees(d, p, newId, run)
  }

  ghost predicate RouteAgrees(d: Directory, p: Principal, newId: nat, run: Run) {
    var (after, ctx) := Active(d, p, None, Viewer, newId);
    ctx.Granted? && ctx.ws in after.spaces && run.ws == Some(ctx.ws) ==>
      (MayView(after, p, run) <==> Fetchable(after, p, ctx, run))
  }

  /** They agree on all runs iff the caller is a global administrator, or a member who counts as
      an administrator there, or whom the visibility policy or the token treats alike anyway. */
  lemma FallbackAgreesIff(d: Directory, p: Principal, newId: nat)
    requires p.scope.None? && p.user != 0 && p.user in d.personal && d.personal[p.user] in d.spaces
    ensures var ws := d.personal[p.user];
            var membership := Lookup(d.rows, ws, p.user);
            RoutesAgree(d, p, newId) <==>
              p.globalAdmin
              || (membership.Some?
                  && (!d.spaces[ws].ownOnly || Cap(p, membership.value.role) == Admin || Cap(p, Admin) != Admin))
  {
    var ws := d.personal[p.user];
    var own, foreign := Run(Some(ws), Some(p.user)), Run(Some(ws), Some(p.user + 1));
    if RoutesAgree(d, p, newId) {
      assert RouteAgrees(d, p, newId, own);
      assert RouteAgrees(d, p, newId, foreign);
    }
  }

  lemma MemberRow(rows: seq<Row>, ws: nat, user: nat)
    ensures Lookup(rows, ws, user).Some? ==> exists r :: r in rows && r.ws == ws
  {
    var k := Find(rows, ws, user);
    if k.Some? {
      assert rows[k.value] in rows;
    }
  }

  /** A request that names no workspace and carries no bound token. The anonymous user of an open
      deployment gets the shared workspace and nothing is created; everybody else the personal
      one, created iff there was none; always as administrator up to the token's ceiling, which
      is the one thing that can refuse it. */
  lemma UnnamedRequest(d: Directory, p: Principal, minRole: Role, newId: nat)
    requires p.scope.None?
    ensures var (after, a) := Active(d, p, None, minRole, newId);
            && (p.user == 0 ==> after == d && (a.Granted? ==> a.ws == d.shared))
            && (p.user != 0 && p.user in d.personal ==> after == d && (a.Granted? ==> a.ws == d.personal[p.user]))
            && (p.user != 0 && p.user !in d.personal ==>
                  && after.personal == d.personal[p.user := newId] && newId in after.spaces && after.shared == d.shared
                  && !after.spaces[newId].ownOnly && after.rows == d.rows + [Row(newId, p.user, Admin, Manual)]
                  && (a.Granted? ==> a.ws == newId))
            && (a.Granted? <==> p.ceiling.None? || Rank(minRole) <= Rank(p.ceiling.value))
            && (a.Refused? ==> a.why == RoleTooLow)
            && (a.Granted? ==> a.role == p.ceiling.GetOr(Admin))
  {
  }

  /** Someone whose personal workspace is created on this very request is its administrator, so
      the routes agree, and so does naming the workspace. */
  lemma FreshFallbackAgrees(d: Directory, p: Principal, newId: nat, minRole: Role)
    requires Valid(d) && p.scope.None? && p.user != 0 && p.user !in d.personal && newId !in d.spaces
    ensures var (after, a) := Active(d, p, None, minRole, newId);
            && Valid(after) && RoutesAgree(d, p, newId) && a == Decide(after, p, newId, minRole)
  {
    var r := Row(newId, p.user, Admin, Manual);
    MemberRow(d.rows, newId, p.user);
    AppendLookup(d.rows, r);
    assert Lookup(d.rows + [r], newId, p.user) == Some(Entry(Admin, Manual));
  }

  // ---- memberships decide access ---------------------------------------------------------

  /** After a login's group sync, a user without a hand-set membership is let into a workspace
      that maps groups iff some group grants a role that, capped by the token, suffices. */
  lemma AccessFollowsGroups(d: Directory, p: Principal, wss: seq<Workspace>, groups: set<string>,
                            ws: Workspace, minRole: Role)
    requires Unique(d.rows) && DistinctIds(wss) && WorkspaceOf(wss, ws.id) == Some(ws) && MapsAGroup(ws)
    requires ws.id in d.spaces && !p.globalAdmin && (p.scope.Some? ==> p.scope.value == ws.id)
    requires Lookup(d.rows, ws.id, p.user).None? || Lookup(d.rows, ws.id, p.user).value.source.Oidc?
    ensures Decide(d.(rows := SyncAll(d.rows, wss, p.user, groups)), p, ws.id, minRole).Granted? <==>
            exists r: Role :: Grants(ws, r, groups) && Rank(Cap(p, r)) >= Rank(minRole)
  {
    SyncMeaning(d.rows, wss, p.user, groups, ws.id, p.user);
    var after := Lookup(SyncAll(d.rows, wss, p.user, groups), ws.id, p.user);
    forall r: Role | Grants(ws, r, groups) ensures after.Some? && Rank(Cap(p, r)) <= Rank(Cap(p, after.value.role)) {
      assert Entitled(ws, groups);
    }
  }

  /** Access that rests on a hand-set membership is the same after any later syncs, and after any
      edits of other memberships, whatever they are. */
  lemma HandSetAccessIsPinned(d: Directory, p: Principal, ws: nat, minRole: Role, ops: seq<Op>)
    requires Unique(d.rows) && PossibleAll(d.rows, ops)
    requires Lookup(d.rows, ws, p.user).Some? && !Lookup(d.rows, ws, p.user).value.source.Oidc?
    requires forall op :: op in ops ==> !((op.ChangeRole? || op.RemoveMember?) && op.ws == ws && op.user == p.user)
    ensures Decide(d.(rows := ApplyAll(d.rows, ops)), p, ws, minRole) == Decide(d, p, ws, minRole)
  {
    HandSetIsPinned(d.rows, ops, ws, p.user);
  }
}
