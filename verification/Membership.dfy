/** Workspace memberships: the table, the handlers that edit it by hand, and the group sync
    that reconciles the rows it owns. */
module Membership {
  import opened Options

  datatype Role = Viewer | Member | Admin

  function Rank(r: Role): nat {
    match r
    case Viewer => 1
    case Member => 2
    case Admin => 3
  }

  /** `Unset` is a row older than the `source` column; only "oidc" rows belong to the sync. */
  datatype Source = Manual | Oidc | Unset

  datatype Row = Row(ws: nat, user: nat, role: Role, source: Source)

  /** What a row says about its (workspace, user) pair. */
  datatype Entry = Entry(role: Role, source: Source)

  /** A workspace's group mapping, one column per tier. */
  datatype Workspace = Workspace(id: nat, adminGroup: Option<string>, memberGroup: Option<string>, viewerGroup: Option<string>)

  datatype Outcome = Done | NotFound | AlreadyMember | LastAdmin

  predicate Matches(r: Row, ws: nat, user: nat) {
    r.ws == ws && r.user == user
  }

  /** `get_membership`: the first row of the pair. */
  function Find(rows: seq<Row>, ws: nat, user: nat): (k: Option<nat>)
    ensures k.Some? ==> k.value < |rows| && Matches(rows[k.value], ws, user)
    ensures k.None? ==> forall i :: 0 <= i < |rows| ==> !Matches(rows[i], ws, user)
  {
    if rows == [] then None
    else if Matches(rows[0], ws, user) then Some(0)
    else match Find(rows[1..], ws, user)
      case None => None
      case Some(k) => Some(k + 1)
  }

  function Lookup(rows: seq<Row>, ws: nat, user: nat): Option<Entry> {
    match Find(rows, ws, user)
    case None => None
    case Some(k) => Some(Entry(rows[k].role, rows[k].source))
  }

  /** The unique constraint on (workspace_id, user_id). */
  ghost predicate Unique(rows: seq<Row>) {
    forall i, j :: 0 <= i < j < |rows| ==> !(rows[i].ws == rows[j].ws && rows[i].user == rows[j].user)
  }

  function Delete(rows: seq<Row>, k: nat): seq<Row>
    requires k < |rows|
  {
    rows[..k] + rows[k + 1..]
  }

  lemma LookupIs(rows: seq<Row>, k: nat)
    requires Unique(rows) && k < |rows|
    ensures Lookup(rows, rows[k].ws, rows[k].user) == Some(Entry(rows[k].role, rows[k].source))
  {
    var found := Find(rows, rows[k].ws, rows[k].user);
    assert Matches(rows[k], rows[k].ws, rows[k].user);
  }

  lemma AppendLookup(rows: seq<Row>, r: Row)
    requires Unique(rows) && Lookup(rows, r.ws, r.user).None?
    ensures Unique(rows + [r])
    ensures forall ws, user :: Lookup(rows + [r], ws, user)
                            == if Matches(r, ws, user) then Some(Entry(r.role, r.source)) else Lookup(rows, ws, user)
  {
    var after := rows + [r];
    assert Unique(after) by {
      forall i, j | 0 <= i < j < |after| ensures !(after[i].ws == after[j].ws && after[i].user == after[j].user) {
        if j == |rows| { assert !Matches(rows[i], r.ws, r.user); }
      }
    }
    forall ws, user
      ensures Lookup(after, ws, user) == if Matches(r, ws, user) then Some(Entry(r.role, r.source)) else Lookup(rows, ws, user)
    {
      if Matches(r, ws, user) {
        LookupIs(after, |rows|);
        assert after[|rows|] == r;
      } else {
        SameLookup(rows, after, ws, user);
      }
    }
  }

  /** Two tables with the same rows for a pair agree on it. */
  lemma SameLookup(rows: seq<Row>, after: seq<Row>, ws: nat, user: nat)
    requires Unique(rows) && Unique(after)
    requires forall r: Row :: Matches(r, ws, user) ==> (r in rows <==> r in after)
    ensures Lookup(after, ws, user) == Lookup(rows, ws, user)
  {
    var k, k' := Find(rows, ws, user), Find(after, ws, user);
    if k.Some? {
      var r := rows[k.value];
      assert r in after;
      var j :| 0 <= j < |after| && after[j] == r;
      LookupIs(after, j);
    } else {
      forall i | 0 <= i < |after| ensures !Matches(after[i], ws, user) {
        assert after[i] in after;
      }
    }
  }

  lemma UpdateLookup(rows: seq<Row>, k: nat, e: Entry)
    requires Unique(rows) && k < |rows|
    ensures var after := rows[k := Row(rows[k].ws, rows[k].user, e.role, e.source)];
            && Unique(after)
            && forall ws, user :: Lookup(after, ws, user)
                               == if Matches(rows[k], ws, user) then Some(e) else Lookup(rows, ws, user)
  {
    var r := Row(rows[k].ws, rows[k].user, e.role, e.source);
    var after := rows[k := r];
    assert Unique(after);
    forall ws, user
      ensures Lookup(after, ws, user) == if Matches(rows[k], ws, user) then Some(e) else Lookup(rows, ws, user)
    {
      if Matches(rows[k], ws, user) {
        LookupIs(after, k);
      } else {
        forall x: Row | Matches(x, ws, user) ensures x in rows <==> x in after {
          UpdateMembers(rows, k, r, x);
        }
        SameLookup(rows, after, ws, user);
      }
    }
  }

  lemma UpdateMembers(rows: seq<Row>, k: nat, r: Row, x: Row)
    requires k < |rows| && x != r && x != rows[k]
    ensures x in rows <==> x in rows[k := r]
  {
    if x in rows {
      var i :| 0 <= i < |rows| && rows[i] == x;
      assert rows[k := r][i] == x;
    }
  }

  lemma DeleteLookup(rows: seq<Row>, k: nat)
    requires Unique(rows) && k < |rows|
    ensures Unique(Delete(rows, k))
    ensures forall ws, user :: Lookup(Delete(rows, k), ws, user)
                            == if Matches(rows[k], ws, user) then None else Lookup(rows, ws, user)
  {
    var after := Delete(rows, k);
    assert forall i :: 0 <= i < |after| ==> after[i] == rows[if i < k then i else i + 1];
    assert Unique(after);
    forall ws, user
      ensures Lookup(after, ws, user) == if Matches(rows[k], ws, user) then None else Lookup(rows, ws, user)
    {
      if Matches(rows[k], ws, user) {
        var found := Find(after, ws, user);
      } else {
        forall x: Row | Matches(x, ws, user) ensures x in rows <==> x in after {
          DeleteMembers(rows, k, x);
        }
        SameLookup(rows, after, ws, user);
      }
    }
  }

  lemma DeleteMembers(rows: seq<Row>, k: nat, x: Row)
    requires k < |rows| && x != rows[k]
    ensures x in rows <==> x in Delete(rows, k)
  {
    if x in rows {
      var i :| 0 <= i < |rows| && rows[i] == x;
      assert Delete(rows, k)[if i < k then i else i - 1] == x;
    }
  }

  // ---- admins ----------------------------------------------------------------------------

  function AdminCount(rows: seq<Row>, ws: nat): nat {
    if rows == [] then 0 else (if rows[0].ws == ws && rows[0].role.Admin? then 1 else 0) + AdminCount(rows[1..], ws)
  }

  ghost predicate HasAdmin(rows: seq<Row>, ws: nat) {
    exists user :: IsAdmin(rows, ws, user)
  }

  predicate IsAdmin(rows: seq<Row>, ws: nat, user: nat) {
    Lookup(rows, ws, user).Some? && Lookup(rows, ws, user).value.role.Admin?
  }

  /** `_guard_last_admin` refuses. */
  predicate Guarded(rows: seq<Row>, ws: nat, user: nat, newRole: Option<Role>) {
    newRole != Some(Admin) && AdminCount(rows, ws) <= 1 && IsAdmin(rows, ws, user)
  }

  lemma {:induction false} AdminCountConcat(a: seq<Row>, b: seq<Row>, ws: nat)
    ensures AdminCount(a + b, ws) == AdminCount(a, ws) + AdminCount(b, ws)
  {
    if a == [] {
      assert a + b == b;
    } else {
      assert (a + b)[1..] == a[1..] + b;
      AdminCountConcat(a[1..], b, ws);
    }
  }

  lemma AdminCountSplit(rows: seq<Row>, ws: nat, k: nat)
    requires k < |rows|
    ensures AdminCount(rows, ws) == AdminCount(Delete(rows, k), ws) + if rows[k].ws == ws && rows[k].role.Admin? then 1 else 0
  {
    assert rows == rows[..k] + [rows[k]] + rows[k + 1..];
    AdminCountConcat(rows[..k] + [rows[k]], rows[k + 1..], ws);
    AdminCountConcat(rows[..k], [rows[k]], ws);
    AdminCountConcat(rows[..k], rows[k + 1..], ws);
  }

  lemma {:induction false} SomeAdminRow(rows: seq<Row>, ws: nat) returns (k: nat)
    requires AdminCount(rows, ws) > 0
    ensures k < |rows| && rows[k].ws == ws && rows[k].role.Admin?
  {
    if rows[0].ws == ws && rows[0].role.Admin? {
      k := 0;
    } else {
      k := SomeAdminRow(rows[1..], ws);
      k := k + 1;
    }
  }

  lemma HasAdminCount(rows: seq<Row>, ws: nat)
    requires Unique(rows)
    ensures HasAdmin(rows, ws) <==> AdminCount(rows, ws) > 0
  {
    if HasAdmin(rows, ws) {
      var user :| IsAdmin(rows, ws, user);
      AdminCountSplit(rows, ws, Find(rows, ws, user).value);
    }
    if AdminCount(rows, ws) > 0 {
      var k := SomeAdminRow(rows, ws);
      LookupIs(rows, k);
      assert IsAdmin(rows, ws, rows[k].user);
    }
  }

  // ---- the handlers -----------------------------------------------------------------------

  function Change(rows: seq<Row>, ws: nat, user: nat, role: Role): (seq<Row>, Outcome) {
    match Find(rows, ws, user)
    case None => (rows, NotFound)
    case Some(k) =>
      if Guarded(rows, ws, user, Some(role)) then (rows, LastAdmin)
      else (rows[k := Row(rows[k].ws, rows[k].user, role, Manual)], Done)
  }

  function Remove(rows: seq<Row>, ws: nat, user: nat): (seq<Row>, Outcome) {
    match Find(rows, ws, user)
    case None => (rows, NotFound)
    case Some(k) =>
      if Guarded(rows, ws, user, None) then (rows, LastAdmin) else (Delete(rows, k), Done)
  }

  function Add(rows: seq<Row>, ws: nat, user: nat, role: Role): (seq<Row>, Outcome) {
    if Find(rows, ws, user).Some? then (rows, AlreadyMember)
    else (rows + [Row(ws, user, role, Manual)], Done)
  }

  /** The guard is exact: in a workspace that has an admin, taking a member's role away or
      lowering it is refused exactly when it would leave the workspace without one. */
  lemma GuardIsExact(rows: seq<Row>, ws: nat, user: nat, newRole: Option<Role>)
    requires Unique(rows) && HasAdmin(rows, ws) && Find(rows, ws, user).Some?
    ensures var k := Find(rows, ws, user).value;
            var after := if newRole.None? then Delete(rows, k) else rows[k := Row(ws, user, newRole.value, Manual)];
            Guarded(rows, ws, user, newRole) <==> !HasAdmin(after, ws)
  {
    var k := Find(rows, ws, user).value;
    AdminCountSplit(rows, ws, k);
    HasAdminCount(rows, ws);
    LookupIs(rows, k);
    if newRole.None? {
      DeleteLookup(rows, k);
      HasAdminCount(Delete(rows, k), ws);
    } else {
      var after := rows[k := Row(ws, user, newRole.value, Manual)];
      UpdateLookup(rows, k, Entry(newRole.value, Manual));
      HasAdminCount(after, ws);
      AdminCountSplit(after, ws, k);
      assert Delete(after, k) == Delete(rows, k);
    }
  }

  /** Somebody other than this user administers the workspace. */
  ghost predicate OtherAdmin(rows: seq<Row>, ws: nat, user: nat) {
    exists u :: u != user && IsAdmin(rows, ws, u)
  }

  /** The guard looks at the rows; what it finds out is whether this is the one admin left. */
  lemma GuardedIff(rows: seq<Row>, ws: nat, user: nat, newRole: Option<Role>)
    requires Unique(rows)
    ensures Guarded(rows, ws, user, newRole)
       <==> newRole != Some(Admin) && IsAdmin(rows, ws, user) && !OtherAdmin(rows, ws, user)
  {
    if IsAdmin(rows, ws, user) {
      var k := Find(rows, ws, user).value;
      AdminCountSplit(rows, ws, k);
      DeleteLookup(rows, k);
      HasAdminCount(Delete(rows, k), ws);
      if OtherAdmin(rows, ws, user) {
        var u :| u != user && IsAdmin(rows, ws, u);
        assert IsAdmin(Delete(rows, k), ws, u);
      }
      if HasAdmin(Delete(rows, k), ws) {
        var u :| IsAdmin(Delete(rows, k), ws, u);
        assert u != user && IsAdmin(rows, ws, u);
      }
    }
  }

  /** A role change: refused for somebody who is no member and for the last admin unless the new
      role is admin too, and otherwise made, by hand; nobody else's membership changes. */
  lemma ChangeOutcome(rows: seq<Row>, ws: nat, user: nat, role: Role, w: nat, u: nat)
    requires Unique(rows)
    ensures var (after, outcome) := Change(rows, ws, user, role);
            && (outcome == NotFound <==> Lookup(rows, ws, user).None?)
            && (outcome == LastAdmin <==> role != Admin && IsAdmin(rows, ws, user) && !OtherAdmin(rows, ws, user))
            && (outcome.NotFound? || outcome.LastAdmin? || outcome.Done?)
            && (outcome != Done ==> after == rows)
            && (outcome == Done ==>
                  Lookup(after, w, u) == if w == ws && u == user then Some(Entry(role, Manual)) else Lookup(rows, w, u))
  {
    GuardedIff(rows, ws, user, Some(role));
    if Find(rows, ws, user).Some? { UpdateLookup(rows, Find(rows, ws, user).value, Entry(role, Manual)); }
  }

  /** A removal likewise. */
  lemma RemoveOutcome(rows: seq<Row>, ws: nat, user: nat, w: nat, u: nat)
    requires Unique(rows)
    ensures var (after, outcome) := Remove(rows, ws, user);
            && (outcome == NotFound <==> Lookup(rows, ws, user).None?)
            && (outcome == LastAdmin <==> IsAdmin(rows, ws, user) && !OtherAdmin(rows, ws, user))
            && (outcome.NotFound? || outcome.LastAdmin? || outcome.Done?)
            && (outcome != Done ==> after == rows)
            && (outcome == Done ==> Lookup(after, w, u) == if w == ws && u == user then None else Lookup(rows, w, u))
  {
    GuardedIff(rows, ws, user, None);
    if Find(rows, ws, user).Some? { DeleteLookup(rows, Find(rows, ws, user).value); }
  }

  /** And an addition: refused for a member, whatever the role, and otherwise made by hand. */
  lemma AddOutcome(rows: seq<Row>, ws: nat, user: nat, role: Role, w: nat, u: nat)
    requires Unique(rows)
    ensures var (after, outcome) := Add(rows, ws, user, role);
            && (outcome == AlreadyMember <==> Lookup(rows, ws, user).Some?)
            && (outcome == Done <==> Lookup(rows, ws, user).None?)
            && (outcome != Done ==> after == rows)
            && (outcome == Done ==>
                  Lookup(after, w, u) == if w == ws && u == user then Some(Entry(role, Manual)) else Lookup(rows, w, u))
  {
    if Find(rows, ws, user).None? { AppendLookup(rows, Row(ws, user, role, Manual)); }
  }

  /** What two removals leave when both check before either commits. */
  function RemoveBoth(rows: seq<Row>, ws: nat, u1: nat, u2: nat): seq<Row>
    requires Unique(rows) && u1 != u2 && Find(rows, ws, u1).Some? && Find(rows, ws, u2).Some?
  {
    var first := Delete(rows, Find(rows, ws, u1).value);
    DeleteLookup(rows, Find(rows, ws, u1).value);
    assert Lookup(first, ws, u2) == Lookup(rows, ws, u2);
    Delete(first, Find(first, ws, u2).value)
  }

  /** The guard protects one request at a time: two removals that both check before either
      commits take a workspace's last admin iff it has exactly two admins and these are they;
      both pass the guard then. */
  lemma RacingRemovals(rows: seq<Row>, ws: nat, u1: nat, u2: nat)
    requires Unique(rows) && u1 != u2 && Find(rows, ws, u1).Some? && Find(rows, ws, u2).Some? && HasAdmin(rows, ws)
    ensures !Guarded(rows, ws, u1, None) && !Guarded(rows, ws, u2, None) && !HasAdmin(RemoveBoth(rows, ws, u1, u2), ws)
       <==> AdminCount(rows, ws) == 2 && IsAdmin(rows, ws, u1) && IsAdmin(rows, ws, u2)
  {
    BothRemoved(rows, ws, u1, u2);
    HasAdminCount(rows, ws);
    HasAdminCount(RemoveBoth(rows, ws, u1, u2), ws);
  }

  lemma BothRemoved(rows: seq<Row>, ws: nat, u1: nat, u2: nat)
    requires Unique(rows) && u1 != u2 && Find(rows, ws, u1).Some? && Find(rows, ws, u2).Some?
    ensures Unique(RemoveBoth(rows, ws, u1, u2))
    ensures AdminCount(rows, ws) == AdminCount(RemoveBoth(rows, ws, u1, u2), ws)
                                    + (if IsAdmin(rows, ws, u1) then 1 else 0) + (if IsAdmin(rows, ws, u2) then 1 else 0)
  {
    var first := Delete(rows, Find(rows, ws, u1).value);
    OneRemoved(rows, ws, u1);
    DeleteLookup(rows, Find(rows, ws, u1).value);
    assert Lookup(first, ws, u2) == Lookup(rows, ws, u2);
    OneRemoved(first, ws, u2);
  }

  lemma OneRemoved(rows: seq<Row>, ws: nat, user: nat)
    requires Unique(rows) && Find(rows, ws, user).Some?
    ensures var after := Delete(rows, Find(rows, ws, user).value);
            Unique(after) && AdminCount(rows, ws) == AdminCount(after, ws) + if IsAdmin(rows, ws, user) then 1 else 0
  {
    DeleteLookup(rows, Find(rows, ws, user).value);
    AdminCountSplit(rows, ws, Find(rows, ws, user).value);
  }

  // ---- the group sync ----------------------------------------------------------------------

  /** A candidate of the sync's query: some tier column is not NULL, even if it is empty. */
  predicate Mapped(ws: Workspace) {
    ws.adminGroup.Some? || ws.memberGroup.Some? || ws.viewerGroup.Some?
  }

  /** Some tier has a group column. */
  ghost predicate MapsAGroup(ws: Workspace) {
    exists r: Role :: TierGroup(ws, r).Some?
  }

  /** The candidates are the workspaces that map a group to any tier at all. */
  lemma CandidatesIff(ws: Workspace)
    ensures Mapped(ws) <==> MapsAGroup(ws)
  {
    assert TierGroup(ws, Admin) == ws.adminGroup && TierGroup(ws, Member) == ws.memberGroup
           && TierGroup(ws, Viewer) == ws.viewerGroup;
  }

  function TierGroup(ws: Workspace, r: Role): Option<string> {
    match r
    case Admin => ws.adminGroup
    case Member => ws.memberGroup
    case Viewer => ws.viewerGroup
  }

  /** The user's groups include the one this tier is mapped to. */
  predicate Grants(ws: Workspace, r: Role, groups: set<string>) {
    TierGroup(ws, r).Some? && TierGroup(ws, r).value != "" && TierGroup(ws, r).value in groups
  }

  /** Some tier's group is among the user's. */
  ghost predicate Entitled(ws: Workspace, groups: set<string>) {
    exists r: Role :: Grants(ws, r, groups)
  }

  function EntitledRole(ws: Workspace, groups: set<string>): (r: Option<Role>)
    ensures r.None? <==> forall t: Role :: !Grants(ws, t, groups)
    ensures r.Some? ==> Grants(ws, r.value, groups) && forall t: Role :: Grants(ws, t, groups) ==> Rank(t) <= Rank(r.value)
  {
    if ws.adminGroup.Some? && ws.adminGroup.value != "" && ws.adminGroup.value in groups then
      assert Grants(ws, Admin, groups);
      Some(Admin)
    else if ws.memberGroup.Some? && ws.memberGroup.value != "" && ws.memberGroup.value in groups then
      assert !Grants(ws, Admin, groups) && Grants(ws, Member, groups);
      Some(Member)
    else if ws.viewerGroup.Some? && ws.viewerGroup.value != "" && ws.viewerGroup.value in groups then
      assert !Grants(ws, Admin, groups) && !Grants(ws, Member, groups) && Grants(ws, Viewer, groups);
      Some(Viewer)
    else
      assert !Grants(ws, Admin, groups) && !Grants(ws, Member, groups) && !Grants(ws, Viewer, groups);
      None
  }

  /** The sync's loop body for one candidate workspace. */
  function SyncOne(rows: seq<Row>, ws: Workspace, user: nat, groups: set<string>): seq<Row> {
    var k := Find(rows, ws.id, user);
    var role := EntitledRole(ws, groups);
    if k.Some? && !rows[k.value].source.Oidc? then rows
    else if role.Some? then
      if k.None? then rows + [Row(ws.id, user, role.value, Oidc)]
      else if rows[k.value].role != role.value then rows[k.value := rows[k.value].(role := role.value)]
      else rows
    else if k.Some? then Delete(rows, k.value)
    else rows
  }

  function SyncAll(rows: seq<Row>, wss: seq<Workspace>, user: nat, groups: set<string>): seq<Row>
    decreases wss
  {
    if wss == [] then rows
    else SyncAll(if Mapped(wss[0]) then SyncOne(rows, wss[0], user, groups) else rows, wss[1..], user, groups)
  }

  /** What a pair's membership is to be after the sync. */
  function Reconciled(before: Option<Entry>, ws: Workspace, groups: set<string>): Option<Entry> {
    if !Mapped(ws) || (before.Some? && !before.value.source.Oidc?) then before
    else match EntitledRole(ws, groups)
      case None => None
      case Some(r) => Some(Entry(r, Oidc))
  }

  lemma SyncOneReconciles(rows: seq<Row>, ws: Workspace, user: nat, groups: set<string>)
    requires Unique(rows) && Mapped(ws)
    ensures Unique(SyncOne(rows, ws, user, groups))
    ensures forall w, u :: Lookup(SyncOne(rows, ws, user, groups), w, u)
                        == if w == ws.id && u == user then Reconciled(Lookup(rows, w, u), ws, groups) else Lookup(rows, w, u)
    ensures SyncOne(rows, ws, user, groups) == rows
       <==> Reconciled(Lookup(rows, ws.id, user), ws, groups) == Lookup(rows, ws.id, user)
  {
    var k := Find(rows, ws.id, user);
    var role := EntitledRole(ws, groups);
    if k.Some? && !rows[k.value].source.Oidc? {
    } else if role.Some? {
      if k.None? {
        AppendLookup(rows, Row(ws.id, user, role.value, Oidc));
      } else if rows[k.value].role != role.value {
        UpdateLookup(rows, k.value, Entry(role.value, Oidc));
      }
    } else if k.Some? {
      DeleteLookup(rows, k.value);
    }
  }

  ghost predicate DistinctIds(wss: seq<Workspace>) {
    forall i, j :: 0 <= i < j < |wss| ==> wss[i].id != wss[j].id
  }

  /** The workspace of a list with a given id, if any. */
  function WorkspaceOf(wss: seq<Workspace>, id: nat): (w: Option<Workspace>)
    ensures w.Some? ==> w.value in wss && w.value.id == id
    ensures w.None? ==> forall ws :: ws in wss ==> ws.id != id
  {
    if wss == [] then None else if wss[0].id == id then Some(wss[0]) else WorkspaceOf(wss[1..], id)
  }

  /** The sync is a reconciliation: every pair ends up as `Reconciled` says, in terms of what
      it was before the sync alone. */
  lemma {:induction false} SyncReconciles(rows: seq<Row>, wss: seq<Workspace>, user: nat, groups: set<string>)
    requires Unique(rows) && DistinctIds(wss)
    ensures Unique(SyncAll(rows, wss, user, groups))
    ensures forall w, u :: Lookup(SyncAll(rows, wss, user, groups), w, u)
                        == if u == user && WorkspaceOf(wss, w).Some?
                           then Reconciled(Lookup(rows, w, u), WorkspaceOf(wss, w).value, groups)
                           else Lookup(rows, w, u)
    decreases wss
  {
    if wss != [] {
      var ws := wss[0];
      var next := if Mapped(ws) then SyncOne(rows, ws, user, groups) else rows;
      if Mapped(ws) { SyncOneReconciles(rows, ws, user, groups); }
      SyncReconciles(next, wss[1..], user, groups);
      assert WorkspaceOf(wss[1..], ws.id).None?;
    }
  }

  /** In a mapped workspace where the user has no hand-set row: afterwards there is a row iff
      some group entitles the user, it is the sync's own, and its role is the highest one any
      group grants. Everything else (hand-set rows, other users, workspaces that map no group,
      even a group-owned row left behind in one) is as before. */
  lemma SyncMeaning(rows: seq<Row>, wss: seq<Workspace>, user: nat, groups: set<string>, w: nat, u: nat)
    requires Unique(rows) && DistinctIds(wss)
    ensures var before, after := Lookup(rows, w, u), Lookup(SyncAll(rows, wss, user, groups), w, u);
            if u == user && WorkspaceOf(wss, w).Some? && MapsAGroup(WorkspaceOf(wss, w).value)
               && (before.None? || before.value.source.Oidc?)
            then && (after.Some? <==> Entitled(WorkspaceOf(wss, w).value, groups))
                 && (after.Some? ==> && after.value.source.Oidc?
                                     && Grants(WorkspaceOf(wss, w).value, after.value.role, groups)
                                     && (forall r: Role :: Grants(WorkspaceOf(wss, w).value, r, groups) ==>
                                           Rank(r) <= Rank(after.value.role)))
            else after == before
  {
    SyncReconciles(rows, wss, user, groups);
    if u == user && WorkspaceOf(wss, w).Some? {
      var ws := WorkspaceOf(wss, w).value;
      var role := EntitledRole(ws, groups);
      CandidatesIff(ws);
      assert role.Some? <==> Entitled(ws, groups);
    }
  }

  /** One of the user's groups is the one in this column; an empty column is no group. */
  predicate InColumn(column: Option<string>, groups: set<string>) {
    column.Some? && column.value != "" && column.value in groups
  }

  /** The same in terms of a workspace's three columns. The user holds no hand-set row there:
      the best tier whose column names one of the user's groups becomes the row, whichever column
      that is; with none, a row of an earlier login is revoked if any column is set at all, and
      left alone if none is. */
  lemma SyncByColumns(rows: seq<Row>, wss: seq<Workspace>, ws: Workspace, user: nat, groups: set<string>)
    requires Unique(rows) && DistinctIds(wss) && ws in wss
    requires Lookup(rows, ws.id, user).None? || Lookup(rows, ws.id, user).value.source.Oidc?
    ensures var after := Lookup(SyncAll(rows, wss, user, groups), ws.id, user);
            var admin, member, viewer := ws.adminGroup, ws.memberGroup, ws.viewerGroup;
            && (InColumn(admin, groups) ==> after == Some(Entry(Admin, Oidc)))
            && (!InColumn(admin, groups) && InColumn(member, groups) ==> after == Some(Entry(Member, Oidc)))
            && (!InColumn(admin, groups) && !InColumn(member, groups) && InColumn(viewer, groups) ==>
                  after == Some(Entry(Viewer, Oidc)))
            && (admin.None? && member.None? && viewer.None? ==> after == Lookup(rows, ws.id, user))
    ensures (ws.adminGroup.Some? || ws.memberGroup.Some? || ws.viewerGroup.Some?) && !Entitled(ws, groups) ==>
              Lookup(SyncAll(rows, wss, user, groups), ws.id, user) == None
    ensures !Entitled(ws, groups)
       <==> !InColumn(ws.adminGroup, groups) && !InColumn(ws.memberGroup, groups) && !InColumn(ws.viewerGroup, groups)
  {
    SameId(wss, ws, WorkspaceOf(wss, ws.id).value);
    SyncMeaning(rows, wss, user, groups, ws.id, user);
    ColumnsGrant(ws, groups);
    var after := Lookup(SyncAll(rows, wss, user, groups), ws.id, user);
    assert after.Some? && MapsAGroup(ws) ==> Grants(ws, after.value.role, groups);
  }

  lemma ColumnsGrant(ws: Workspace, groups: set<string>)
    ensures Grants(ws, Admin, groups) <==> InColumn(ws.adminGroup, groups)
    ensures Grants(ws, Member, groups) <==> InColumn(ws.memberGroup, groups)
    ensures Grants(ws, Viewer, groups) <==> InColumn(ws.viewerGroup, groups)
    ensures Entitled(ws, groups)
       <==> InColumn(ws.adminGroup, groups) || InColumn(ws.memberGroup, groups) || InColumn(ws.viewerGroup, groups)
    ensures MapsAGroup(ws) <==> ws.adminGroup.Some? || ws.memberGroup.Some? || ws.viewerGroup.Some?
  {
    CandidatesIff(ws);
    assert Grants(ws, Admin, groups) || Grants(ws, Member, groups) || Grants(ws, Viewer, groups) ==> Entitled(ws, groups);
  }

  /** The order the workspaces come in does not matter. */
  lemma SyncOrderIrrelevant(rows: seq<Row>, wss: seq<Workspace>, wss': seq<Workspace>, user: nat, groups: set<string>)
    requires Unique(rows) && DistinctIds(wss) && DistinctIds(wss')
    requires forall ws :: ws in wss <==> ws in wss'
    ensures forall w, u :: Lookup(SyncAll(rows, wss, user, groups), w, u) == Lookup(SyncAll(rows, wss', user, groups), w, u)
  {
    SyncReconciles(rows, wss, user, groups);
    SyncReconciles(rows, wss', user, groups);
    forall w ensures WorkspaceOf(wss, w) == WorkspaceOf(wss', w) {
      var a, b := WorkspaceOf(wss, w), WorkspaceOf(wss', w);
      if a.Some? && b.Some? {
        SameId(wss, a.value, b.value);
      }
    }
  }

  lemma SameId(wss: seq<Workspace>, a: Workspace, b: Workspace)
    requires DistinctIds(wss) && a in wss && b in wss && a.id == b.id
    ensures a == b
  {
    var i :| 0 <= i < |wss| && wss[i] == a;
    var j :| 0 <= j < |wss| && wss[j] == b;
    assert i == j;
  }

  /** Nothing is left to reconcile in any of these workspaces. */
  ghost predicate Settled(rows: seq<Row>, wss: seq<Workspace>, user: nat, groups: set<string>) {
    forall ws :: ws in wss ==> Reconciled(Lookup(rows, ws.id, user), ws, groups) == Lookup(rows, ws.id, user)
  }

  lemma {:induction false} SettledIsUntouched(rows: seq<Row>, wss: seq<Workspace>, user: nat, groups: set<string>)
    requires Unique(rows) && Settled(rows, wss, user, groups)
    ensures SyncAll(rows, wss, user, groups) == rows
    decreases wss
  {
    if wss != [] {
      assert wss[0] in wss;
      if Mapped(wss[0]) { SyncOneReconciles(rows, wss[0], user, groups); }
      SettledIsUntouched(rows, wss[1..], user, groups);
    }
  }

  /** A second sync with the same groups changes nothing at all. */
  lemma SyncIdempotent(rows: seq<Row>, wss: seq<Workspace>, user: nat, groups: set<string>)
    requires Unique(rows) && DistinctIds(wss)
    ensures var once := SyncAll(rows, wss, user, groups);
            Settled(once, wss, user, groups) && SyncAll(once, wss, user, groups) == once
  {
    var once := SyncAll(rows, wss, user, groups);
    SyncReconciles(rows, wss, user, groups);
    forall ws | ws in wss
      ensures Reconciled(Lookup(once, ws.id, user), ws, groups) == Lookup(once, ws.id, user)
    {
      SameId(wss, ws, WorkspaceOf(wss, ws.id).value);
    }
    SettledIsUntouched(once, wss, user, groups);
  }

  /** The sync manages the user's row in w: the workspace maps a group and the row is not
      hand-set. */
  ghost predicate Managed(rows: seq<Row>, wss: seq<Workspace>, user: nat, w: nat) {
    && WorkspaceOf(wss, w).Some? && MapsAGroup(WorkspaceOf(wss, w).value)
    && (Lookup(rows, w, user).None? || Lookup(rows, w, user).value.source.Oidc?)
  }

  /** Somebody else is an administrator of w, or this user's entry stays or becomes one. */
  ghost predicate Spares(rows: seq<Row>, wss: seq<Workspace>, user: nat, groups: set<string>, w: nat) {
    || (exists u :: u != user && IsAdmin(rows, w, u))
    || (if Managed(rows, wss, user, w) then Grants(WorkspaceOf(wss, w).value, Admin, groups) else IsAdmin(rows, w, user))
  }

  /** Unlike the handlers, the sync can take a workspace's last admin: whatever workspaces it
      goes through, it leaves w one exactly when it spares one. */
  lemma SyncKeepsAdminIff(rows: seq<Row>, wss: seq<Workspace>, user: nat, groups: set<string>, w: nat)
    requires Unique(rows) && DistinctIds(wss)
    ensures HasAdmin(SyncAll(rows, wss, user, groups), w) <==> Spares(rows, wss, user, groups, w)
  {
    var after := SyncAll(rows, wss, user, groups);
    SyncReconciles(rows, wss, user, groups);
    if WorkspaceOf(wss, w).Some? { CandidatesIff(WorkspaceOf(wss, w).value); }
    assert forall u :: u != user ==> (IsAdmin(after, w, u) <==> IsAdmin(rows, w, u));
    assert IsAdmin(after, w, user)
      <==> if Managed(rows, wss, user, w) then Grants(WorkspaceOf(wss, w).value, Admin, groups) else IsAdmin(rows, w, user);
    if HasAdmin(after, w) {
      var u :| IsAdmin(after, w, u);
    }
  }

  // ---- every sequence of operations ---------------------------------------------------

  datatype Op =
    | CreateWorkspace(ws: nat, owner: nat)
    | AddMember(ws: nat, user: nat, role: Role)
    | ChangeRole(ws: nat, user: nat, role: Role)
    | RemoveMember(ws: nat, user: nat)
    | Sync(user: nat, groups: set<string>, wss: seq<Workspace>)

  /** A new workspace's id is new; the anonymous user (id 0) gets no membership in it. */
  ghost predicate Possible(rows: seq<Row>, op: Op) {
    (op.CreateWorkspace? ==> forall i :: 0 <= i < |rows| ==> rows[i].ws != op.ws)
    && (op.Sync? ==> DistinctIds(op.wss))
  }

  function Apply(rows: seq<Row>, op: Op): seq<Row> {
    match op
    case CreateWorkspace(ws, owner) => if owner == 0 then rows else rows + [Row(ws, owner, Admin, Manual)]
    case AddMember(ws, user, role) => Add(rows, ws, user, role).0
    case ChangeRole(ws, user, role) => Change(rows, ws, user, role).0
    case RemoveMember(ws, user) => Remove(rows, ws, user).0
    case Sync(user, groups, wss) => SyncAll(rows, wss, user, groups)
  }

  ghost predicate PossibleAll(rows: seq<Row>, ops: seq<Op>)
    decreases ops
  {
    ops == [] || (Possible(rows, ops[0]) && PossibleAll(Apply(rows, ops[0]), ops[1..]))
  }

  function ApplyAll(rows: seq<Row>, ops: seq<Op>): seq<Row>
    decreases ops
  {
    if ops == [] then rows else ApplyAll(Apply(rows, ops[0]), ops[1..])
  }

  /** What one operation makes of a pair's membership. */
  function Effect(rows: seq<Row>, op: Op, w: nat, u: nat): Option<Entry> {
    var before := Lookup(rows, w, u);
    if op.CreateWorkspace? then
      if op.owner != 0 && w == op.ws && u == op.owner then Some(Entry(Admin, Manual)) else before
    else if op.AddMember? then
      if w == op.ws && u == op.user && before.None? then Some(Entry(op.role, Manual)) else before
    else if op.ChangeRole? then
      if w == op.ws && u == op.user && before.Some? && !Guarded(rows, w, u, Some(op.role)) then Some(Entry(op.role, Manual))
      else before
    else if op.RemoveMember? then
      if w == op.ws && u == op.user && !Guarded(rows, w, u, None) then None else before
    else if u == op.user && WorkspaceOf(op.wss, w).Some? then
      Reconciled(before, WorkspaceOf(op.wss, w).value, op.groups)
    else before
  }

  lemma ApplyLookup(rows: seq<Row>, op: Op, w: nat, u: nat)
    requires Unique(rows) && Possible(rows, op)
    ensures Unique(Apply(rows, op))
    ensures Lookup(Apply(rows, op), w, u) == Effect(rows, op, w, u)
  {
    match op
    case CreateWorkspace(ws, owner) =>
      if owner != 0 {
        assert Find(rows, ws, owner).None?;
        AppendLookup(rows, Row(ws, owner, Admin, Manual));
      }
    case AddMember(ws, user, role) =>
      if Find(rows, ws, user).None? { AppendLookup(rows, Row(ws, user, role, Manual)); }
    case ChangeRole(ws, user, role) =>
      if Find(rows, ws, user).Some? { UpdateLookup(rows, Find(rows, ws, user).value, Entry(role, Manual)); }
    case RemoveMember(ws, user) =>
      if Find(rows, ws, user).Some? { DeleteLookup(rows, Find(rows, ws, user).value); }
    case Sync(user, groups, wss) => SyncReconciles(rows, wss, user, groups);
  }

  lemma ApplyKeepsAdmin(rows: seq<Row>, op: Op, w: nat)
    requires Unique(rows) && Possible(rows, op) && HasAdmin(rows, w) && !op.Sync?
    ensures HasAdmin(Apply(rows, op), w)
  {
    var admin :| IsAdmin(rows, w, admin);
    ApplyLookup(rows, op, w, admin);
    if op.ChangeRole? && op.ws == w && Find(rows, w, op.user).Some? {
      GuardIsExact(rows, w, op.user, Some(op.role));
    } else if op.RemoveMember? && op.ws == w && Find(rows, w, op.user).Some? {
      GuardIsExact(rows, w, op.user, None);
    } else {
      assert IsAdmin(Apply(rows, op), w, admin);
    }
  }

  /** Over every sequence of creations, additions, role changes and removals, one row per
      (workspace, user) at most, and a workspace that has an admin always has one. */
  lemma {:induction false} AdminNeverLost(rows: seq<Row>, ops: seq<Op>, w: nat)
    requires Unique(rows) && PossibleAll(rows, ops) && HasAdmin(rows, w)
    requires forall op :: op in ops ==> !op.Sync?
    ensures Unique(ApplyAll(rows, ops)) && HasAdmin(ApplyAll(rows, ops), w)
    decreases ops
  {
    if ops != [] {
      ApplyLookup(rows, ops[0], w, 0);
      ApplyKeepsAdmin(rows, ops[0], w);
      AdminNeverLost(Apply(rows, ops[0]), ops[1..], w);
    }
  }

  /** Every sync of the sequence spares an administrator of w when its turn comes. */
  ghost predicate SyncsSpare(rows: seq<Row>, ops: seq<Op>, w: nat)
    decreases ops
  {
    ops == [] ||
    (&& (ops[0].Sync? ==> Spares(rows, ops[0].wss, ops[0].user, ops[0].groups, w))
     && SyncsSpare(Apply(rows, ops[0]), ops[1..], w))
  }

  /** The workspace has an administrator at every moment of the sequence. */
  ghost predicate AlwaysAdmin(rows: seq<Row>, ops: seq<Op>, w: nat)
    decreases ops
  {
    HasAdmin(rows, w) && (ops == [] || AlwaysAdmin(Apply(rows, ops[0]), ops[1..], w))
  }

  /** Over every sequence of operations whatever, syncs included, a workspace that has an admin
      has one at every moment iff every sync spares one. */
  lemma {:induction false} AdminKeptIff(rows: seq<Row>, ops: seq<Op>, w: nat)
    requires Unique(rows) && PossibleAll(rows, ops) && HasAdmin(rows, w)
    ensures AlwaysAdmin(rows, ops, w) <==> SyncsSpare(rows, ops, w)
    decreases ops
  {
    if ops != [] {
      var next := Apply(rows, ops[0]);
      ApplyLookup(rows, ops[0], w, 0);
      if ops[0].Sync? {
        SyncKeepsAdminIff(rows, ops[0].wss, ops[0].user, ops[0].groups, w);
      } else {
        ApplyKeepsAdmin(rows, ops[0], w);
      }
      if HasAdmin(next, w) {
        AdminKeptIff(next, ops[1..], w);
      }
    }
  }

  /** Uniqueness survives syncs as well. */
  lemma {:induction false} AlwaysUnique(rows: seq<Row>, ops: seq<Op>)
    requires Unique(rows) && PossibleAll(rows, ops)
    ensures Unique(ApplyAll(rows, ops))
    decreases ops
  {
    if ops != [] {
      ApplyLookup(rows, ops[0], 0, 0);
      AlwaysUnique(Apply(rows, ops[0]), ops[1..]);
    }
  }

  /** A membership set by hand stays exactly as it is through every later sync, whatever the
      user's groups and the mappings become, until a handler changes or removes that very
      membership. */
  lemma {:induction false} HandSetIsPinned(rows: seq<Row>, ops: seq<Op>, w: nat, u: nat)
    requires Unique(rows) && PossibleAll(rows, ops)
    requires Lookup(rows, w, u).Some? && !Lookup(rows, w, u).value.source.Oidc?
    requires forall op :: op in ops ==> !((op.ChangeRole? || op.RemoveMember?) && op.ws == w && op.user == u)
    ensures Lookup(ApplyAll(rows, ops), w, u) == Lookup(rows, w, u)
    decreases ops
  {
    if ops != [] {
      ApplyLookup(rows, ops[0], w, u);
      if ops[0].CreateWorkspace? {
        assert rows[Find(rows, w, u).value].ws == w;
      }
      HandSetIsPinned(Apply(rows, ops[0]), ops[1..], w, u);
    }
  }

  /** And a successful role change is such a hand-set membership. */
  lemma ChangeThenPinned(rows: seq<Row>, w: nat, u: nat, role: Role, ops: seq<Op>)
    requires Unique(rows) && Change(rows, w, u, role).1 == Done
    requires PossibleAll(Change(rows, w, u, role).0, ops)
    requires forall op :: op in ops ==> !((op.ChangeRole? || op.RemoveMember?) && op.ws == w && op.user == u)
    ensures Lookup(ApplyAll(Change(rows, w, u, role).0, ops), w, u) == Some(Entry(role, Manual))
  {
    ApplyLookup(rows, ChangeRole(w, u, role), w, u);
    HandSetIsPinned(Change(rows, w, u, role).0, ops, w, u);
  }

  // ---- the table the handlers and the sync update in place -------------------------------

  class MembershipTable {
    var rows: seq<Row>

    constructor ()
      ensures rows == []
    {
      rows := [];
    }

    method AddMember(ws: nat, user: nat, role: Role, userExists: bool) returns (outcome: Outcome)
      modifies this
      ensures !userExists ==> outcome == NotFound && rows == old(rows)
      ensures userExists ==> (rows, outcome) == Add(old(rows), ws, user, role)
    {
      if !userExists {
        return NotFound;
      }
      if Find(rows, ws, user).Some? {
        return AlreadyMember;
      }
      rows := rows + [Row(ws, user, role, Manual)];
      outcome := Done;
    }

    method ChangeMemberRole(ws: nat, user: nat, role: Role) returns (outcome: Outcome)
      modifies this
      ensures (rows, outcome) == Change(old(rows), ws, user, role)
    {
      var k := Find(rows, ws, user);
      if k.None? {
        return NotFound;
      }
      if Guarded(rows, ws, user, Some(role)) {
        return LastAdmin;
      }
      rows := rows[k.value := rows[k.value].(role := role, source := Manual)];
      outcome := Done;
    }

    method RemoveMember(ws: nat, user: nat) returns (outcome: Outcome)
      modifies this
      ensures (rows, outcome) == Remove(old(rows), ws, user)
    {
      var k := Find(rows, ws, user);
      if k.None? {
        return NotFound;
      }
      if Guarded(rows, ws, user, None) {
        return LastAdmin;
      }
      rows := Delete(rows, k.value);
      outcome := Done;
    }

    /** `sync_oidc_group_memberships`; `changed` decides whether it commits, and is true
        exactly when something changed. */
    method SyncGroups(user: nat, groups: seq<string>, wss: seq<Workspace>) returns (changed: bool)
      requires Unique(rows) && DistinctIds(wss)
      modifies this
      ensures rows == SyncAll(old(rows), wss, user, set g | g in groups && g != "")
      ensures Unique(rows) && (changed <==> rows != old(rows))
    {
      var groupSet := set g | g in groups && g != "";
      ghost var start := rows;
      changed := false;
      var i := 0;
      while i < |wss|
        invariant 0 <= i <= |wss| && Unique(rows)
        invariant SyncAll(rows, wss[i..], user, groupSet) == SyncAll(start, wss, user, groupSet)
        invariant !changed ==> rows == start
        invariant changed ==> exists w :: WorkspaceOf(wss[i..], w).None? && Lookup(rows, w, user) != Lookup(start, w, user)
        invariant forall w :: WorkspaceOf(wss[i..], w).Some? ==> Lookup(rows, w, user) == Lookup(start, w, user)
      {
        assert wss[i..][1..] == wss[i + 1..];
        SplitIds(wss, i);
        if Mapped(wss[i]) {
          SyncOneReconciles(rows, wss[i], user, groupSet);
          var touched := SyncWorkspace(wss[i], user, groupSet);
          if touched {
            changed := true;
            assert Lookup(rows, wss[i].id, user) != Lookup(start, wss[i].id, user);
          }
        }
        i := i + 1;
      }
    }

    method SyncWorkspace(ws: Workspace, user: nat, groups: set<string>) returns (touched: bool)
      modifies this
      ensures rows == SyncOne(old(rows), ws, user, groups)
      ensures touched <==> rows != old(rows)
    {
      var k := Find(rows, ws.id, user);
      if k.Some? && !rows[k.value].source.Oidc? {
        return false;
      }
      var role := EntitledRole(ws, groups);
      if role.Some? {
        if k.None? {
          rows := rows + [Row(ws.id, user, role.value, Oidc)];
          return true;
        } else if rows[k.value].role != role.value {
          rows := rows[k.value := rows[k.value].(role := role.value)];
          return true;
        }
      } else if k.Some? {
        rows := Delete(rows, k.value);
        return true;
      }
      touched := false;
    }
  }

  lemma SplitIds(wss: seq<Workspace>, i: nat)
    requires i < |wss| && DistinctIds(wss)
    ensures WorkspaceOf(wss[i..], wss[i].id) == Some(wss[i]) && WorkspaceOf(wss[i + 1..], wss[i].id).None?
    ensures forall w :: w != wss[i].id ==> WorkspaceOf(wss[i..], w) == WorkspaceOf(wss[i + 1..], w)
  {
    assert wss[i..][0] == wss[i] && wss[i..][1..] == wss[i + 1..];
    forall ws | ws in wss[i + 1..] ensures ws.id != wss[i].id {
      var j :| 0 <= j < |wss[i + 1..]| && wss[i + 1..][j] == ws;
      assert wss[i + 1 + j] == ws;
    }
  }
}
