/**
  The permission model: the lookup `hasPermission` (App.tsx:81-83), the
  default policy (App.tsx:72-78) and the settings-page write path
  `handleUpdatePermission` (App.tsx:1806-1815).

  The policy is an explicit value passed to every check; the only writer is
  `UpdatePermission`, which the source does not gate itself (the settings
  page is what restricts it to administrators).
 */
module Permissions {
  import opened Types
  import opened Seqs

  /** `Array.includes`: a left-to-right scan for `x`. */
  function Includes(s: seq<Permission>, x: Permission): (b: bool)
    ensures b <==> x in s
  {
    if |s| == 0 then false
    else s[0] == x || Includes(s[1..], x)
  }

  /** `permissionsMap[role]?.includes(permission) || false`: a role with no
      entry is refused rather than an error. */
  function HasPermission(role: Role, perm: Permission, policy: Policy): (b: bool)
    ensures b <==> role in policy && perm in policy[role]
    ensures role !in policy ==> !b
  {
    if role in policy then Includes(policy[role], perm) else false
  }

  /** The policy the dashboard starts with. */
  function DefaultPolicy(): (p: Policy)
    ensures Total(p)
    ensures forall perm :: HasPermission(Admin, perm, p)
    ensures forall perm :: HasPermission(Developer, perm, p) <==> perm == EditTask
    ensures forall perm :: !HasPermission(Viewer, perm, p)
  {
    var p := map[
      Admin := AllPermissions(),
      ProductOwner := [CreateProject, EditProject, CreateTask, EditTask, DeleteTask, ViewReports],
      ScrumMaster := [CreateTask, EditTask, ViewReports, ManageUsers],
      Developer := [EditTask],
      Viewer := []];
    assert forall perm :: p[Admin][PermissionIndex(perm)] == perm;
    assert forall role: Role :: AllRoles()[RoleIndex(role)] == role && role in p;
    p
  }

  /** The default grants, written as a table of sets: the reference the
      default policy's lists are checked against. */
  predicate GrantedByDefault(role: Role, perm: Permission) {
    match role
    case Admin => true
    case ProductOwner =>
      perm in {CreateProject, EditProject, CreateTask, EditTask, DeleteTask, ViewReports}
    case ScrumMaster => perm in {CreateTask, EditTask, ViewReports, ManageUsers}
    case Developer => perm == EditTask
    case Viewer => false
  }

  /** Every (role, permission) pair the default table does not list is
      refused, and every pair it lists is granted. */
  lemma DefaultPolicyMatchesTable(role: Role, perm: Permission)
    ensures HasPermission(role, perm, DefaultPolicy()) <==> GrantedByDefault(role, perm)
  {
    var p := DefaultPolicy();
    match role
    case Admin =>
    case ProductOwner =>
      assert p[ProductOwner] == [CreateProject, EditProject, CreateTask, EditTask, DeleteTask, ViewReports];
    case ScrumMaster =>
      assert p[ScrumMaster] == [CreateTask, EditTask, ViewReports, ManageUsers];
    case Developer =>
    case Viewer =>
  }

  /** The filter callback `p => p !== permission`. */
  function Other(perm: Permission): Permission -> bool {
    p => p != perm
  }

  /** Ticking (`allowed`) appends `perm` to the role's list; unticking
      removes every copy of it. Other roles keep their lists. */
  function UpdatePermission(policy: Policy, role: Role, perm: Permission, allowed: bool): (r: Policy)
    requires role in policy
    ensures r.Keys == policy.Keys
    ensures forall other :: other in policy && other != role ==> r[other] == policy[other]
    ensures HasPermission(role, perm, r) <==> allowed
    ensures forall q :: q != perm ==> (HasPermission(role, q, r) <==> HasPermission(role, q, policy))
  {
    var rolePerms := policy[role];
    if allowed then policy[role := rolePerms + [perm]]
    else policy[role := Filter(rolePerms, Other(perm))]
  }

  /** Granting appends even when the role already holds the permission:
      the old list is kept as a prefix, the permission comes last, and the
      list grows by exactly one entry, duplicates included. */
  lemma GrantAppends(policy: Policy, role: Role, perm: Permission)
    requires role in policy
    ensures var granted := UpdatePermission(policy, role, perm, true)[role];
      |granted| == |policy[role]| + 1 && granted[..|policy[role]|] == policy[role]
      && granted[|policy[role]|] == perm
    ensures multiset(UpdatePermission(policy, role, perm, true)[role])
         == multiset(policy[role]) + multiset{perm}
  {
  }

  /** Revoking removes every copy of the permission and keeps every other
      entry, with its multiplicity. */
  lemma RevokeRemovesAllCopies(policy: Policy, role: Role, perm: Permission)
    requires role in policy
    ensures multiset(UpdatePermission(policy, role, perm, false)[role])
         == multiset(policy[role])[perm := 0]
  {
    FilterOutValue(policy[role], perm, Other(perm));
  }

  /** Revoking right after granting is the same as revoking alone: the grant
      leaves no trace, however many copies it duplicated. */
  lemma RevokeAfterGrant(policy: Policy, role: Role, perm: Permission)
    requires role in policy
    ensures UpdatePermission(UpdatePermission(policy, role, perm, true), role, perm, false)
         == UpdatePermission(policy, role, perm, false)
  {
    FilterConcat(policy[role], [perm], Other(perm));
    var once := UpdatePermission(policy, role, perm, false);
    var twice := UpdatePermission(UpdatePermission(policy, role, perm, true), role, perm, false);
    assert twice[role] == once[role];
    assert twice.Keys == once.Keys;
  }

  /** Updates keep the policy total: every role still has an entry. */
  lemma UpdateKeepsTotal(policy: Policy, role: Role, perm: Permission, allowed: bool)
    requires Total(policy)
    ensures Total(UpdatePermission(policy, role, perm, allowed))
  {
  }

  /** Nothing in the update path protects the administrator: unticking one
      of Admin's permissions takes effect (only the settings page's disabled
      checkbox prevents it). */
  lemma AdminCanLosePermission(perm: Permission)
    ensures !HasPermission(Admin, perm, UpdatePermission(DefaultPolicy(), Admin, perm, false))
  {
  }
}
