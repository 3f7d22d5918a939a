/**
 * Authority inside one organisation: roles, permissions, invitations, transfer of ownership. The issue
 * of an invitation reads its author first and writes later; every other operation is a transaction.
 */
module Membership {

  import opened Options

  // ----- Permissions -----

  datatype Permission =
    | CatalogManage | ProductsManage | StockAdjust | SalesRecord | SalesViewOwn | SalesViewAll
    | ProductsViewStockDetails | ProductsViewFinancials | AnalyticsRead | AuditRead | TrashManage
    | BrandingManage | MembersInvite | MembersManage | SupportContact | SalesNotifications

  const DELEGABLE: set<Permission> := {
    CatalogManage, ProductsManage, StockAdjust, SalesRecord, SalesViewOwn, SalesViewAll,
    ProductsViewStockDetails, ProductsViewFinancials, AnalyticsRead, AuditRead, TrashManage,
    BrandingManage, MembersInvite, MembersManage, SupportContact, SalesNotifications
  }

  const STANDARD: set<Permission> := {SalesRecord, SalesViewOwn}

  datatype Role = Owner | Admin | Seller

  function DefaultPermissions(role: Role): set<Permission> {
    match role
    case Owner => DELEGABLE
    case Admin => DELEGABLE
    case Seller => {SalesRecord, SalesViewOwn}
  }

  function Listed(permissions: seq<Permission>): set<Permission> {
    set p | p in permissions
  }

  function Effective(role: Role, permissions: seq<Permission>): set<Permission> {
    STANDARD + DefaultPermissions(role) + Listed(permissions)
  }

  /** The permissions a client knows: version 1 misses one; an unknown version counts as 1. */
  function Catalog(version: int): set<Permission> {
    if version == 2 then DELEGABLE else DELEGABLE - {SalesNotifications}
  }

  function KeptFrom(stored: seq<Permission>, known: set<Permission>, requested: seq<Permission>): seq<Permission> {
    if |stored| == 0 then []
    else
      var last := stored[|stored| - 1];
      KeptFrom(stored[..|stored| - 1], known, requested)
      + if last !in known && last !in requested then [last] else []
  }

  function MergeUnknown(requested: seq<Permission>, stored: seq<Permission>, version: int): seq<Permission> {
    requested + KeptFrom(stored, Catalog(version), requested)
  }

  ghost predicate NoRepeat(permissions: seq<Permission>) {
    forall i, j :: 0 <= i < j < |permissions| ==> permissions[i] != permissions[j]
  }

  lemma {:induction false} KeptMembers(stored: seq<Permission>, known: set<Permission>, requested: seq<Permission>)
    ensures forall p :: p in KeptFrom(stored, known, requested) <==> p in stored && p !in known && p !in requested
    ensures NoRepeat(stored) ==> NoRepeat(KeptFrom(stored, known, requested))
  {
    if |stored| > 0 {
      var front := stored[..|stored| - 1];
      KeptMembers(front, known, requested);
      assert stored == front + [stored[|stored| - 1]];
      if NoRepeat(stored) { assert stored[|stored| - 1] !in front; }
    }
  }

  /** An older form never withdraws what it does not know, and never adds anything of its own. */
  lemma MergeKeepsUnknown(requested: seq<Permission>, stored: seq<Permission>, version: int)
    ensures Listed(MergeUnknown(requested, stored, version)) == Listed(requested) + (Listed(stored) - Catalog(version))
    ensures NoRepeat(requested) && NoRepeat(stored) ==> NoRepeat(MergeUnknown(requested, stored, version))
  {
    KeptMembers(stored, Catalog(version), requested);
    var kept := KeptFrom(stored, Catalog(version), requested);
    if NoRepeat(requested) && NoRepeat(stored) {
      forall i, j | 0 <= i < j < |requested + kept| ensures (requested + kept)[i] != (requested + kept)[j] {
        if i < |requested| <= j { assert kept[j - |requested|] in kept; }
      }
    }
  }

  // ----- Documents -----

  datatype MemberStatus = Active | Suspended | Revoked

  /** `invitation` tells where the membership comes from; the founder has none. */
  datatype Member = Member(user: nat, role: Role, permissions: seq<Permission>, status: MemberStatus,
                           invitation: Option<nat>)

  datatype InvitationStatus = Pending | Expired | Removed

  datatype Invitation = Invitation(email: string, role: Role, permissions: seq<Permission>, status: InvitationStatus)

  /** An invitation whose author was checked but which is not written yet. */
  datatype Draft = Draft(email: string, role: Role, permissions: seq<Permission>, open: bool)

  datatype Org = Org(members: seq<Member>, invitations: seq<Invitation>, drafts: seq<Draft>)

  function MemberOf(members: seq<Member>, user: nat): Option<nat> {
    if |members| == 0 then None
    else if members[|members| - 1].user == user then Some(|members| - 1)
    else MemberOf(members[..|members| - 1], user)
  }

  lemma {:induction false} MemberOfFinds(members: seq<Member>, user: nat)
    ensures MemberOf(members, user).Some? ==>
              MemberOf(members, user).value < |members| && members[MemberOf(members, user).value].user == user
    ensures MemberOf(members, user).None? ==> forall i :: 0 <= i < |members| ==> members[i].user != user
  {
    if |members| > 0 { MemberOfFinds(members[..|members| - 1], user); }
  }

  predicate ActiveOwner(m: Member) {
    m.role == Owner && m.status == Active
  }

  /** The two unique indexes of memberships, checked by each write. */
  ghost predicate Writable(members: seq<Member>, i: nat, m: Member)
    requires i <= |members|
  {
    forall j :: 0 <= j < |members| && j != i ==>
      members[j].user != m.user && !(ActiveOwner(m) && ActiveOwner(members[j]))
  }

  // ----- Operations -----

  datatype Action =
    | BeginInvitation(author: nat, email: string, role: Role, permissions: seq<Permission>)
    | WriteInvitation(draft: nat, account: Option<nat>)
    | ExpireInvitation(invitation: nat)
    | RevokeInvitation(author: nat, invitation: nat)
    | Accept(user: nat, invitation: nat)
    | Update(author: nat, target: nat, newRole: Option<Role>, newPermissions: Option<seq<Permission>>,
             newStatus: Option<MemberStatus>, version: int)
    | Transfer(author: nat, target: nat)

  predicate ActiveMember(s: Org, user: nat) {
    MemberOf(s.members, user).Some? && MemberOf(s.members, user).value < |s.members|
    && s.members[MemberOf(s.members, user).value].status == Active
  }

  function MemberAt(s: Org, user: nat): Member
    requires ActiveMember(s, user)
  {
    s.members[MemberOf(s.members, user).value]
  }

  /** May this author invite with these rights: the owner always, another only within its own. */
  predicate MayInvite(s: Org, author: nat, role: Role, permissions: seq<Permission>) {
    && ActiveMember(s, author) && role != Owner
    && var m := MemberAt(s, author);
       m.role == Owner || (MembersInvite in Effective(m.role, m.permissions)
                           && Effective(role, permissions) <= Effective(m.role, m.permissions))
  }

  predicate PendingFor(s: Org, email: string) {
    exists i :: 0 <= i < |s.invitations| && s.invitations[i].status == Pending && s.invitations[i].email == email
  }

  /** The address belongs to the account of an active member, or has a pending invitation. */
  predicate AlreadyIn(s: Org, email: string, account: Option<nat>) {
    (account.Some? && ActiveMember(s, account.value)) || PendingFor(s, email)
  }

  function Requested(target: Member, permissions: Option<seq<Permission>>, version: int): seq<Permission> {
    if permissions.None? then target.permissions else MergeUnknown(permissions.value, target.permissions, version)
  }

  function Changed(target: Member, role: Option<Role>, permissions: Option<seq<Permission>>,
                   status: Option<MemberStatus>, version: int): Member {
    target.(role := if role.Some? then role.value else target.role,
            permissions := Requested(target, permissions, version),
            status := if status.Some? then status.value else target.status)
  }

  predicate MayUpdate(s: Org, author: nat, target: nat, after: Member) {
    && target < |s.members|
    && s.members[target].user != author && s.members[target].role != Owner
    && ActiveMember(s, author) && after.role != Owner
    && var m := MemberAt(s, author);
       m.role == Owner
       || (Effective(s.members[target].role, s.members[target].permissions) <= Effective(m.role, m.permissions)
           && Effective(after.role, after.permissions) <= Effective(m.role, m.permissions))
  }

  predicate MayTransfer(s: Org, author: nat, target: nat) {
    && ActiveMember(s, author) && MemberAt(s, author).role == Owner
    && target < |s.members| && s.members[target].user != author && s.members[target].status == Active
  }

  function Transferred(s: Org, author: nat, target: nat): seq<Member>
    requires MayTransfer(s, author, target)
  {
    var i := MemberOf(s.members, author).value;
    s.members[i := s.members[i].(role := Admin)][target := s.members[target].(role := Owner)]
  }

  function Next(s: Org, action: Action): Org {
    match action
    case BeginInvitation(author, email, role, permissions) =>
      if MayInvite(s, author, role, permissions) then s.(drafts := s.drafts + [Draft(email, role, permissions, true)]) else s
    case WriteInvitation(d, account) =>
      if d >= |s.drafts| || !s.drafts[d].open then s
      else
        var draft := s.drafts[d];
        var closed := s.(drafts := s.drafts[d := draft.(open := false)]);
        if AlreadyIn(s, draft.email, account) then closed
        else closed.(invitations := s.invitations + [Invitation(draft.email, draft.role, draft.permissions, Pending)])
    case ExpireInvitation(i) =>
      if i < |s.invitations| && s.invitations[i].status == Pending
      then s.(invitations := s.invitations[i := s.invitations[i].(status := Expired)]) else s
    case RevokeInvitation(author, i) =>
      if i < |s.invitations| && s.invitations[i].status == Pending && ActiveMember(s, author)
      then s.(invitations := s.invitations[i := s.invitations[i].(status := Removed)]) else s
    case Accept(user, i) =>
      if i < |s.invitations| && s.invitations[i].status == Pending && MemberOf(s.members, user).None?
      then s.(invitations := s.invitations[i := s.invitations[i].(status := Removed)],
              members := s.members + [Member(user, s.invitations[i].role, s.invitations[i].permissions, Active, Some(i))])
      else s
    case Update(author, target, role, permissions, status, version) =>
      if target < |s.members| && MayUpdate(s, author, target, Changed(s.members[target], role, permissions, status, version))
      then s.(members := s.members[target := Changed(s.members[target], role, permissions, status, version)])
      else s
    case Transfer(author, target) =>
      if MayTransfer(s, author, target) then s.(members := Transferred(s, author, target)) else s
  }

  function Run(s: Org, actions: seq<Action>): Org {
    if |actions| == 0 then s else Next(Run(s, actions[..|actions| - 1]), actions[|actions| - 1])
  }

  function Founded(founder: nat): Org {
    Org([Member(founder, Owner, [], Active, None)], [], [])
  }

  // ----- One owner, one membership -----

  ghost predicate OneOwner(members: seq<Member>) {
    exists o :: 0 <= o < |members| && ActiveOwner(members[o])
             && forall j :: 0 <= j < |members| && members[j].role == Owner ==> j == o
  }

  ghost predicate OnePerUser(members: seq<Member>) {
    forall i, j :: 0 <= i < j < |members| ==> members[i].user != members[j].user
  }

  /** Where memberships come from: an invitation serves once and is then gone. */
  ghost predicate OnePerInvitation(s: Org) {
    && (forall i :: 0 <= i < |s.members| && s.members[i].invitation.Some? ==>
          s.members[i].invitation.value < |s.invitations|
          && s.invitations[s.members[i].invitation.value].status == Removed)
    && (forall i, j :: 0 <= i < j < |s.members| && s.members[i].invitation.Some? ==>
          s.members[i].invitation != s.members[j].invitation)
  }

  /** The schema refuses an invitation of an owner. */
  ghost predicate NoOwnerInvited(s: Org) {
    && (forall i :: 0 <= i < |s.invitations| ==> s.invitations[i].role != Owner)
    && (forall i :: 0 <= i < |s.drafts| ==> s.drafts[i].role != Owner)
  }

  ghost predicate Sound(s: Org) {
    OneOwner(s.members) && OnePerUser(s.members) && OnePerInvitation(s) && NoOwnerInvited(s)
  }

  lemma OwnerStays(members: seq<Member>, i: nat, m: Member)
    requires OneOwner(members) && i < |members| && members[i].role != Owner && m.role != Owner
    ensures OneOwner(members[i := m])
  {
    var o :| 0 <= o < |members| && ActiveOwner(members[o])
             && forall j :: 0 <= j < |members| && members[j].role == Owner ==> j == o;
    assert ActiveOwner(members[i := m][o]);
  }

  lemma OwnerOfMore(members: seq<Member>, m: Member)
    requires OneOwner(members) && m.role != Owner
    ensures OneOwner(members + [m])
  {
    var o :| 0 <= o < |members| && ActiveOwner(members[o])
             && forall j :: 0 <= j < |members| && members[j].role == Owner ==> j == o;
    assert ActiveOwner((members + [m])[o]);
  }

  lemma OwnerMoves(members: seq<Member>, i: nat, t: nat)
    requires OneOwner(members) && i < |members| && t < |members| && i != t
    requires members[i].role == Owner && members[t].status == Active
    ensures OneOwner(members[i := members[i].(role := Admin)][t := members[t].(role := Owner)])
  {
    var after := members[i := members[i].(role := Admin)][t := members[t].(role := Owner)];
    assert ActiveOwner(after[t]);
  }

  lemma AcceptKeepsSound(s: Org, user: nat, i: nat)
    requires Sound(s)
    ensures Sound(Next(s, Accept(user, i)))
  {
    MemberOfFinds(s.members, user);
    if i < |s.invitations| && MemberOf(s.members, user).None? {
      var m := Member(user, s.invitations[i].role, s.invitations[i].permissions, Active, Some(i));
      OwnerOfMore(s.members, m);
      hide OneOwner, MemberOf;
    }
  }

  lemma UpdateKeepsSound(s: Org, action: Action)
    requires Sound(s) && action.Update?
    ensures Sound(Next(s, action))
  {
    if action.target < |s.members| {
      var m := Changed(s.members[action.target], action.newRole, action.newPermissions, action.newStatus, action.version);
      if MayUpdate(s, action.author, action.target, m) {
        OwnerStays(s.members, action.target, m);
        hide OneOwner, MayUpdate, Requested;
      }
    }
  }

  lemma TransferKeepsSound(s: Org, author: nat, target: nat)
    requires Sound(s)
    ensures Sound(Next(s, Transfer(author, target)))
  {
    MemberOfFinds(s.members, author);
    if MayTransfer(s, author, target) {
      OwnerMoves(s.members, MemberOf(s.members, author).value, target);
      hide OneOwner, MemberOf;
    }
  }

  lemma NextKeepsSound(s: Org, action: Action)
    requires Sound(s)
    ensures Sound(Next(s, action))
  {
    if action.Accept? {
      AcceptKeepsSound(s, action.user, action.invitation);
    } else if action.Update? {
      UpdateKeepsSound(s, action);
    } else if action.Transfer? {
      TransferKeepsSound(s, action.author, action.target);
    } else {
      hide OneOwner, OnePerUser, MemberOf, PendingFor;
      assert Next(s, action).members == s.members;
    }
  }

  /**
   * In every committed state of every run: exactly one membership of role owner and it is active, at
   * most one membership per user and per invitation.
   */
  lemma {:induction false} RunKeepsSound(s: Org, actions: seq<Action>)
    requires Sound(s)
    ensures Sound(Run(s, actions))
  {
    if |actions| > 0 {
      RunKeepsSound(s, actions[..|actions| - 1]);
      NextKeepsSound(Run(s, actions[..|actions| - 1]), actions[|actions| - 1]);
    }
  }

  lemma FoundedIsSound(founder: nat)
    ensures Sound(Founded(founder))
  {
    assert ActiveOwner(Founded(founder).members[0]);
  }

  // ----- The unique indexes -----

  function ActiveOwners(members: seq<Member>): nat {
    if |members| == 0 then 0
    else ActiveOwners(members[..|members| - 1]) + if ActiveOwner(members[|members| - 1]) then 1 else 0
  }

  lemma {:induction false} NoActiveOwners(members: seq<Member>)
    requires forall j :: 0 <= j < |members| ==> !ActiveOwner(members[j])
    ensures ActiveOwners(members) == 0
  {
    if |members| > 0 { NoActiveOwners(members[..|members| - 1]); }
  }

  lemma {:induction false} OneActiveOwner(members: seq<Member>, o: nat)
    requires o < |members| && ActiveOwner(members[o])
    requires forall j :: 0 <= j < |members| && j != o ==> !ActiveOwner(members[j])
    ensures ActiveOwners(members) == 1
  {
    if o == |members| - 1 {
      NoActiveOwners(members[..o]);
    } else {
      OneActiveOwner(members[..|members| - 1], o);
    }
  }

  /**
   * The transfer demotes first: both writes pass the unique indexes, there is no owner in between and
   * one at the end, so the count made before the commit never refuses. Promoting first would fail.
   */
  lemma TransferNeedsItsOrder(s: Org, author: nat, target: nat)
    requires Sound(s) && MayTransfer(s, author, target)
    ensures var i := MemberOf(s.members, author).value;
            var demoted := s.members[i].(role := Admin);
            var promoted := s.members[target].(role := Owner);
            && i < |s.members| && i != target
            && Writable(s.members, i, demoted)
            && ActiveOwners(s.members[i := demoted]) == 0
            && Writable(s.members[i := demoted], target, promoted)
            && ActiveOwners(Transferred(s, author, target)) == 1
            && !Writable(s.members, target, promoted)
  {
    var i := MemberOf(s.members, author).value;
    MemberOfFinds(s.members, author);
    var demoted := s.members[i].(role := Admin);
    var promoted := s.members[target].(role := Owner);
    forall j | 0 <= j < |s.members| && j != i ensures s.members[j].user != s.members[i].user {
      assert OnePerUser(s.members);
    }
    forall j | 0 <= j < |s.members| && j != target ensures s.members[j].user != s.members[target].user {
      assert OnePerUser(s.members);
    }
    NoActiveOwners(s.members[i := demoted]);
    OneActiveOwner(Transferred(s, author, target), target);
    assert ActiveOwner(promoted) && ActiveOwner(s.members[i]);
  }

  // ----- Non-amplification -----

  ghost predicate OwnerActs(s: Org, action: Action) {
    && (action.BeginInvitation? || action.RevokeInvitation? || action.Update? || action.Transfer?)
    && ActiveMember(s, action.author) && MemberAt(s, action.author).role == Owner
  }

  ghost predicate HeldByMember(s: Org, p: Permission) {
    exists i :: 0 <= i < |s.members| && s.members[i].role != Owner && s.members[i].status == Active
             && p in Effective(s.members[i].role, s.members[i].permissions)
  }

  ghost predicate Promised(s: Org, p: Permission) {
    exists i :: 0 <= i < |s.invitations| && s.invitations[i].status == Pending
             && p in Effective(s.invitations[i].role, s.invitations[i].permissions)
  }

  ghost predicate UnderWay(s: Org, p: Permission) {
    exists i :: 0 <= i < |s.drafts| && s.drafts[i].open && p in Effective(s.drafts[i].role, s.drafts[i].permissions)
  }

  /** Held by an active member other than the owner, promised by an invitation, or about to be. */
  ghost predicate Granted(s: Org, p: Permission) {
    HeldByMember(s, p) || Promised(s, p) || UnderWay(s, p)
  }

  lemma AuthorHolds(s: Org, author: nat, p: Permission)
    requires ActiveMember(s, author) && MemberAt(s, author).role != Owner
    requires p in Effective(MemberAt(s, author).role, MemberAt(s, author).permissions)
    ensures HeldByMember(s, p)
  {}

  lemma MembersGainNothing(s: Org, action: Action, p: Permission)
    requires !OwnerActs(s, action) && HeldByMember(Next(s, action), p)
    ensures HeldByMember(s, p) || Promised(s, p)
  {
    hide Effective, Requested;
    var t := Next(s, action);
    var i :| 0 <= i < |t.members| && t.members[i].role != Owner && t.members[i].status == Active
             && p in Effective(t.members[i].role, t.members[i].permissions);
    if i < |s.members| && t.members[i] == s.members[i] {
    } else if action.Update? {
      assert MayUpdate(s, action.author, action.target, t.members[i]);
      AuthorHolds(s, action.author, p);
    } else if action.Accept? {
      var invitation := s.invitations[action.invitation];
      assert p in Effective(invitation.role, invitation.permissions);
    }
  }

  lemma InvitationsGainNothing(s: Org, action: Action, p: Permission)
    requires Promised(Next(s, action), p)
    ensures Promised(s, p) || UnderWay(s, p)
  {
    hide Effective, MemberOf, PendingFor, AlreadyIn;
    var t := Next(s, action);
    var i :| 0 <= i < |t.invitations| && t.invitations[i].status == Pending
             && p in Effective(t.invitations[i].role, t.invitations[i].permissions);
    if i >= |s.invitations| {
      var draft := s.drafts[action.draft];
      assert p in Effective(draft.role, draft.permissions);
    }
  }

  lemma DraftsGainNothing(s: Org, action: Action, p: Permission)
    requires !OwnerActs(s, action) && UnderWay(Next(s, action), p)
    ensures UnderWay(s, p) || HeldByMember(s, p)
  {
    hide Effective, MemberOf, PendingFor, AlreadyIn;
    var t := Next(s, action);
    var i :| 0 <= i < |t.drafts| && t.drafts[i].open && p in Effective(t.drafts[i].role, t.drafts[i].permissions);
    if i >= |s.drafts| {
      assert MayInvite(s, action.author, action.role, action.permissions);
      AuthorHolds(s, action.author, p);
    }
  }

  ghost predicate NoOwnerStep(s: Org, actions: seq<Action>) {
    |actions| == 0 || (NoOwnerStep(s, actions[..|actions| - 1])
                       && !OwnerActs(Run(s, actions[..|actions| - 1]), actions[|actions| - 1]))
  }

  /**
   * Without a step of the owner nothing new is granted to anyone, whatever members invite, accept,
   * change or revoke, even once the author of an invitation has lost its rights.
   */
  lemma {:induction false} NothingIsAmplified(s: Org, actions: seq<Action>, p: Permission)
    requires NoOwnerStep(s, actions) && Granted(Run(s, actions), p)
    ensures Granted(s, p)
  {
    if |actions| > 0 {
      var front := actions[..|actions| - 1];
      var before, last := Run(s, front), actions[|actions| - 1];
      hide Next, OwnerActs, HeldByMember, Promised, UnderWay;
      if HeldByMember(Next(before, last), p) {
        MembersGainNothing(before, last, p);
      } else if Promised(Next(before, last), p) {
        InvitationsGainNothing(before, last, p);
      } else {
        DraftsGainNothing(before, last, p);
      }
      NothingIsAmplified(s, front, p);
    }
  }

  /** A right an active member holds is not lost by the acts of members: who takes it away has it. */
  lemma MembersKeepRights(s: Org, action: Action, p: Permission)
    requires !OwnerActs(s, action) && HeldByMember(s, p)
    ensures HeldByMember(Next(s, action), p)
  {
    hide Effective, Requested;
    var t := Next(s, action);
    var i :| 0 <= i < |s.members| && s.members[i].role != Owner && s.members[i].status == Active
             && p in Effective(s.members[i].role, s.members[i].permissions);
    if t.members[i] == s.members[i] {
    } else {
      assert action.Update? && i == action.target;
      var a := MemberOf(s.members, action.author).value;
      MemberOfFinds(s.members, action.author);
      assert t.members[a] == s.members[a];
    }
  }

  ghost predicate DraftsCovered(s: Org) {
    forall p :: UnderWay(s, p) ==> HeldByMember(s, p)
  }

  lemma DraftsStayCovered(s: Org, action: Action)
    requires DraftsCovered(s) && !OwnerActs(s, action)
    ensures DraftsCovered(Next(s, action))
  {
    hide Next, OwnerActs, HeldByMember, Promised, UnderWay;
    forall p | UnderWay(Next(s, action), p) ensures HeldByMember(Next(s, action), p) {
      DraftsGainNothing(s, action, p);
      MembersKeepRights(s, action, p);
    }
  }

  /**
   * Once no invitation of the owner is under way, the rights of active members and of pending
   * invitations together never grow from one step to the next.
   */
  lemma NoStepGrants(s: Org, action: Action, p: Permission)
    requires DraftsCovered(s) && !OwnerActs(s, action)
    requires var t := Next(s, action); HeldByMember(t, p) || Promised(t, p)
    ensures HeldByMember(s, p) || Promised(s, p)
  {
    hide Next, OwnerActs, HeldByMember, Promised, UnderWay;
    if HeldByMember(Next(s, action), p) {
      MembersGainNothing(s, action, p);
    } else {
      InvitationsGainNothing(s, action, p);
    }
  }

  /**
   * The action writes an invitation that was under way, with this right, for an address that has none
   * pending and is no active member's.
   */
  ghost predicate Lands(s: Org, action: Action, p: Permission) {
    && action.WriteInvitation? && action.draft < |s.drafts| && s.drafts[action.draft].open
    && p in Effective(s.drafts[action.draft].role, s.drafts[action.draft].permissions)
    && !AlreadyIn(s, s.drafts[action.draft].email, action.account)
  }

  /**
   * The exact exception: a step other than the owner's brings a right that no active member held and
   * no pending invitation promised exactly when it writes an invitation that was under way with it.
   */
  lemma GrantsExactly(s: Org, action: Action, p: Permission)
    requires !OwnerActs(s, action) && !HeldByMember(s, p) && !Promised(s, p)
    ensures HeldByMember(Next(s, action), p) || Promised(Next(s, action), p) <==> Lands(s, action, p)
  {
    if HeldByMember(Next(s, action), p) {
      hide Next, OwnerActs, HeldByMember, Promised;
      MembersGainNothing(s, action, p);
    } else if Lands(s, action, p) {
      hide MemberOf, Effective;
      assert Next(s, action).invitations[|s.invitations|].status == Pending;
      assert Promised(Next(s, action), p);
    } else if Promised(Next(s, action), p) {
      PromiseIsNew(s, action, p);
    }
  }

  lemma PromiseIsNew(s: Org, action: Action, p: Permission)
    requires !Promised(s, p) && Promised(Next(s, action), p)
    ensures Lands(s, action, p)
  {
    hide MemberOf, Effective, PendingFor, AlreadyIn;
    var t := Next(s, action);
    assert forall i :: 0 <= i < |s.invitations| && t.invitations[i].status == Pending ==> t.invitations[i] == s.invitations[i];
    var i :| 0 <= i < |t.invitations| && t.invitations[i].status == Pending
             && p in Effective(t.invitations[i].role, t.invitations[i].permissions);
  }

  /** The owner of a new organisation checks an invitation and has not written it yet. */
  function OwnerInviting(): seq<Action> {
    [BeginInvitation(0, "a", Admin, [])]
  }

  /**
   * So the invitation under way has to be counted: it is reached from the foundation, and lands after
   * the owner's last step.
   */
  lemma DraftOfOwnerLands()
    ensures var s := Run(Founded(0), OwnerInviting());
            && Sound(s) && !OwnerActs(s, WriteInvitation(0, None))
            && !HeldByMember(s, AuditRead) && !Promised(s, AuditRead)
            && Promised(Next(s, WriteInvitation(0, None)), AuditRead)
  {
    var s := Run(Founded(0), OwnerInviting());
    FoundedIsSound(0);
    RunKeepsSound(Founded(0), OwnerInviting());
    assert OwnerInviting()[..0] == [];
    assert s == Next(Founded(0), BeginInvitation(0, "a", Admin, []));
    assert s.drafts == [Draft("a", Admin, [], true)];
    assert Lands(s, WriteInvitation(0, None), AuditRead);
    GrantsExactly(s, WriteInvitation(0, None), AuditRead);
  }

  // ----- What each request does, told on the memberships -----

  lemma {:induction false} MemberOfIndex(members: seq<Member>, i: nat)
    requires OnePerUser(members) && i < |members|
    ensures MemberOf(members, members[i].user) == Some(i)
  {
    if i < |members| - 1 {
      assert members[i].user != members[|members| - 1].user;
      MemberOfIndex(members[..|members| - 1], i);
    }
  }

  /** The owner and an admin hold every right; a seller the two standard ones and those listed. */
  lemma RightsOf(permissions: seq<Permission>, p: Permission)
    ensures p in Effective(Owner, permissions) && p in Effective(Admin, permissions)
    ensures p in Effective(Seller, permissions) <==> p == SalesRecord || p == SalesViewOwn || p in permissions
  {}

  /** Only membership t differs. */
  ghost predicate OnlyMember(s: Org, next: Org, t: nat) {
    && next.invitations == s.invitations && next.drafts == s.drafts && |next.members| == |s.members|
    && forall j :: 0 <= j < |s.members| && j != t ==> next.members[j] == s.members[j]
  }

  /** What an update asks for: the fields given, and old permissions the client's form does not show. */
  ghost predicate AsAsked(before: Member, after: Member, newRole: Option<Role>, newPermissions: Option<seq<Permission>>,
                          newStatus: Option<MemberStatus>, version: int) {
    && after.user == before.user && after.invitation == before.invitation
    && after.role == (if newRole.Some? then newRole.value else before.role)
    && after.status == (if newStatus.Some? then newStatus.value else before.status)
    && (newPermissions.None? ==> after.permissions == before.permissions)
    && (newPermissions.Some? ==> forall p :: p in after.permissions <==>
          p in newPermissions.value || (version != 2 && p == SalesNotifications && p in before.permissions))
  }

  lemma EveryPermission(p: Permission)
    ensures p in DELEGABLE
  {}

  lemma ChangedIsAsked(target: Member, newRole: Option<Role>, newPermissions: Option<seq<Permission>>,
                       newStatus: Option<MemberStatus>, version: int)
    ensures AsAsked(target, Changed(target, newRole, newPermissions, newStatus, version), newRole, newPermissions, newStatus, version)
  {
    if newPermissions.Some? {
      var merged := MergeUnknown(newPermissions.value, target.permissions, version);
      MergeKeepsUnknown(newPermissions.value, target.permissions, version);
      forall p ensures p in merged <==>
          p in newPermissions.value || (version != 2 && p == SalesNotifications && p in target.permissions) {
        assert p in merged <==> p in Listed(merged);
        EveryPermission(p);
      }
    }
  }

  /** The owner changes any other membership as asked, and nothing else. */
  lemma OwnerUpdates(s: Org, a: nat, t: nat, newRole: Option<Role>, newPermissions: Option<seq<Permission>>,
                     newStatus: Option<MemberStatus>, version: int)
    requires Sound(s) && a < |s.members| && t < |s.members| && a != t
    requires s.members[a].role == Owner && newRole != Some(Owner)
    ensures var next := Next(s, Update(s.members[a].user, t, newRole, newPermissions, newStatus, version));
            OnlyMember(s, next, t) && AsAsked(s.members[t], next.members[t], newRole, newPermissions, newStatus, version)
  {
    MemberOfIndex(s.members, a);
    ChangedIsAsked(s.members[t], newRole, newPermissions, newStatus, version);
    hide AsAsked, Requested, MemberOf;
  }

  /**
   * Any other active member does so exactly when the membership is not its own nor the owner's, and its
   * rights before and after are all rights of the member who changes it; otherwise nothing changes.
   */
  lemma MemberUpdates(s: Org, a: nat, t: nat, newRole: Option<Role>, newPermissions: Option<seq<Permission>>,
                      newStatus: Option<MemberStatus>, version: int, after: Member)
    requires Sound(s) && a < |s.members| && t < |s.members|
    requires s.members[a].role != Owner && newRole != Some(Owner)
    requires after == Changed(s.members[t], newRole, newPermissions, newStatus, version)
    ensures AsAsked(s.members[t], after, newRole, newPermissions, newStatus, version)
    ensures var m, before := s.members[a], s.members[t];
            Next(s, Update(m.user, t, newRole, newPermissions, newStatus, version)) ==
              if m.status == Active && a != t && before.role != Owner
                 && (forall p :: p in Effective(before.role, before.permissions) || p in Effective(after.role, after.permissions) ==>
                       p in Effective(m.role, m.permissions))
              then s.(members := s.members[t := after]) else s
  {
    MemberOfIndex(s.members, a);
    MemberOfIndex(s.members, t);
    ChangedIsAsked(s.members[t], newRole, newPermissions, newStatus, version);
    hide AsAsked, Changed, MemberOf, Effective, OneOwner, OnePerInvitation;
  }

  /** A member once suspended or revoked is no active member, and nothing it asks for has any effect. */
  lemma RevokedActsNoMore(s: Org, a: nat, t: nat, newRole: Option<Role>, newPermissions: Option<seq<Permission>>,
                          newStatus: MemberStatus, version: int, action: Action)
    requires Sound(s) && a < |s.members| && t < |s.members| && a != t
    requires s.members[a].role == Owner && newRole != Some(Owner) && newStatus != Active
    requires action.BeginInvitation? || action.RevokeInvitation? || action.Update? || action.Transfer?
    requires action.author == s.members[t].user
    ensures var next := Next(s, Update(s.members[a].user, t, newRole, newPermissions, Some(newStatus), version));
            && !ActiveMember(next, s.members[t].user)
            && (forall role, permissions :: !MayInvite(next, s.members[t].user, role, permissions))
            && (forall target, after :: !MayUpdate(next, s.members[t].user, target, after))
            && Next(next, action) == next
  {
    var update := Update(s.members[a].user, t, newRole, newPermissions, Some(newStatus), version);
    OwnerUpdates(s, a, t, newRole, newPermissions, Some(newStatus), version);
    UpdateKeepsSound(s, update);
    var next := Next(s, update);
    MemberOfIndex(next.members, t);
    assert next.members[t].user == s.members[t].user && next.members[t].status == newStatus;
    hide Next, Sound, MemberOf;
    assert !ActiveMember(next, s.members[t].user);
    InactiveDoesNothing(next, action);
  }

  lemma InactiveDoesNothing(s: Org, action: Action)
    requires action.BeginInvitation? || action.RevokeInvitation? || action.Update? || action.Transfer?
    requires !ActiveMember(s, action.author)
    ensures Next(s, action) == s
  {}

  /** An invitation is begun exactly by the owner, or by a member who may invite and holds all its rights. */
  lemma InviteExactly(s: Org, a: nat, email: string, role: Role, permissions: seq<Permission>)
    requires Sound(s) && a < |s.members|
    ensures var m := s.members[a];
            Next(s, BeginInvitation(m.user, email, role, permissions)) ==
              if m.status == Active && role != Owner
                 && (m.role == Owner || (MembersInvite in Effective(m.role, m.permissions)
                                         && forall p :: p in Effective(role, permissions) ==> p in Effective(m.role, m.permissions)))
              then s.(drafts := s.drafts + [Draft(email, role, permissions, true)]) else s
  {
    MemberOfIndex(s.members, a);
    hide MemberOf, Effective, OneOwner, OnePerInvitation;
  }

  /** Somebody is invited under this address already, or is an active member with its account. */
  ghost predicate Taken(s: Org, email: string, account: Option<nat>) {
    || (exists i :: 0 <= i < |s.invitations| && s.invitations[i].status == Pending && s.invitations[i].email == email)
    || (exists j :: 0 <= j < |s.members| && account == Some(s.members[j].user) && s.members[j].status == Active)
  }

  /** It is written, once, unless its address has one pending or its account is an active member's. */
  lemma WriteExactly(s: Org, d: nat, account: Option<nat>)
    requires Sound(s) && d < |s.drafts| && s.drafts[d].open
    ensures var next := Next(s, WriteInvitation(d, account)); var draft := s.drafts[d];
            && next.members == s.members && next.drafts == s.drafts[d := draft.(open := false)]
            && next.invitations == (if Taken(s, draft.email, account) then s.invitations
                                    else s.invitations + [Invitation(draft.email, draft.role, draft.permissions, Pending)])
            && Next(next, WriteInvitation(d, account)) == next
  {
    if account.Some? {
      MemberOfFinds(s.members, account.value);
      forall j | 0 <= j < |s.members| && account == Some(s.members[j].user)
        ensures MemberOf(s.members, account.value) == Some(j)
      {
        MemberOfIndex(s.members, j);
      }
    }
    hide MemberOf, OneOwner, OnePerUser, OnePerInvitation, NoOwnerInvited;
  }

  /** Who takes a pending invitation and is no member yet becomes one, with the rights it was invited with. */
  lemma AcceptExactly(s: Org, user: nat, i: nat)
    ensures Next(s, Accept(user, i)) ==
              if i < |s.invitations| && s.invitations[i].status == Pending
                 && (forall j :: 0 <= j < |s.members| ==> s.members[j].user != user)
              then Org(s.members + [Member(user, s.invitations[i].role, s.invitations[i].permissions, Active, Some(i))],
                       s.invitations[i := s.invitations[i].(status := Removed)], s.drafts)
              else s
  {
    MemberOfFinds(s.members, user);
    hide MemberOf;
  }

  /** Only a pending invitation is revoked or expires; its place then stays closed. */
  lemma WithdrawExactly(s: Org, a: nat, i: nat)
    requires Sound(s) && a < |s.members|
    ensures var pending := i < |s.invitations| && s.invitations[i].status == Pending;
            && Next(s, RevokeInvitation(s.members[a].user, i)) ==
                 (if pending && s.members[a].status == Active
                  then s.(invitations := s.invitations[i := s.invitations[i].(status := Removed)]) else s)
            && Next(s, ExpireInvitation(i)) ==
                 (if pending then s.(invitations := s.invitations[i := s.invitations[i].(status := Expired)]) else s)
  {
    MemberOfIndex(s.members, a);
    hide MemberOf, OneOwner, OnePerInvitation;
  }

  /** Ownership passes exactly from the owner to another active member; the former owner stays as admin. */
  lemma TransferExactly(s: Org, a: nat, t: nat)
    requires Sound(s) && a < |s.members|
    ensures Next(s, Transfer(s.members[a].user, t)) ==
              if s.members[a].role == Owner && t < |s.members| && t != a && s.members[t].status == Active
              then s.(members := s.members[a := s.members[a].(role := Admin)][t := s.members[t].(role := Owner)]) else s
  {
    MemberOfIndex(s.members, a);
    if t < |s.members| { MemberOfIndex(s.members, t); }
    hide MemberOf, OnePerInvitation;
  }

  // ----- The service -----

  datatype Outcome =
    | Done | EmptyUpdate | NotFound | SelfManagement | OwnerNotManageable | AccessDenied | PermissionDenied
    | AlreadyPending | AlreadyActive | AlreadyMember | InvalidOrExpired | TargetIsOwner | TargetNotActive | InvariantViolated

  class OrganizationService {
    var members: seq<Member>
    var invitations: seq<Invitation>
    var drafts: seq<Draft>

    ghost function State(): Org
      reads this
    {
      Org(members, invitations, drafts)
    }

    /** `findOne({ organizationId, userId })`. */
    method FindMember(user: nat) returns (found: Option<nat>)
      ensures found == MemberOf(members, user)
      ensures found.Some? ==> found.value < |members|
    {
      var n := |members|;
      assert members[..n] == members;
      while n > 0 && members[n - 1].user != user
        invariant 0 <= n <= |members|
        invariant MemberOf(members, user) == MemberOf(members[..n], user)
      {
        assert members[..n][..n - 1] == members[..n - 1];
        n := n - 1;
      }
      found := if n > 0 then Some(n - 1) else None;
    }

    /** First half of an invitation: its author is read again and its rights compared. */
    method BeginInvitation(author: nat, email: string, role: Role, permissions: seq<Permission>) returns (outcome: Outcome)
      requires role != Owner
      modifies this`drafts
      ensures State() == Next(old(State()), Action.BeginInvitation(author, email, role, permissions))
      ensures outcome == if MayInvite(old(State()), author, role, permissions) then Done else PermissionDenied
    {
      var found := FindMember(author);
      if found.None? || members[found.value].status != Active {
        return PermissionDenied;
      }
      var actor := members[found.value];
      var rights := Effective(actor.role, actor.permissions);
      if actor.role != Owner {
        if MembersInvite !in rights {
          return PermissionDenied;
        }
        if !(Effective(role, permissions) <= rights) {
          return PermissionDenied;
        }
      }
      drafts := drafts + [Draft(email, role, permissions, true)];
      outcome := Done;
    }

    /**
     * Second half: the invitation is written unless the account of the address is an active member's or
     * an invitation is pending for it.
     */
    method WriteInvitation(d: nat, account: Option<nat>) returns (outcome: Outcome)
      requires d < |drafts| && drafts[d].open
      modifies this`drafts, this`invitations
      ensures State() == Next(old(State()), Action.WriteInvitation(d, account))
      ensures outcome == if account.Some? && ActiveMember(old(State()), account.value) then AlreadyActive
                         else if PendingFor(old(State()), old(drafts)[d].email) then AlreadyPending else Done
    {
      var draft := drafts[d];
      drafts := drafts[d := draft.(open := false)];
      if account.Some? {
        var member := FindMember(account.value);
        if member.Some? && members[member.value].status == Active {
          return AlreadyActive;
        }
      }
      var i := 0;
      while i < |invitations|
        invariant i <= |invitations| && invitations == old(invitations)
        invariant forall j :: 0 <= j < i ==> invitations[j].status != Pending || invitations[j].email != draft.email
      {
        if invitations[i].status == Pending && invitations[i].email == draft.email {
          return AlreadyPending;
        }
        i := i + 1;
      }
      invitations := invitations + [Invitation(draft.email, draft.role, draft.permissions, Pending)];
      outcome := Done;
    }

    /** The invitation is taken and becomes a membership, or nothing changes. */
    method Accept(user: nat, i: nat) returns (outcome: Outcome)
      modifies this`invitations, this`members
      ensures State() == Next(old(State()), Action.Accept(user, i))
      ensures outcome == if i >= |old(invitations)| || old(invitations)[i].status != Pending then InvalidOrExpired
                         else if MemberOf(old(members), user).Some? then AlreadyMember else Done
    {
      if i >= |invitations| || invitations[i].status != Pending {
        return InvalidOrExpired;
      }
      var invitation := invitations[i];
      var existing := FindMember(user);
      if existing.Some? {
        return AlreadyMember;
      }
      invitations := invitations[i := invitation.(status := Removed)];
      members := members + [Member(user, invitation.role, invitation.permissions, Active, Some(i))];
      outcome := Done;
    }

    /** Role, permissions and status are assigned on the loaded membership, then saved. */
    method UpdateMembership(author: nat, target: nat, role: Option<Role>, permissions: Option<seq<Permission>>,
                            status: Option<MemberStatus>, version: int) returns (outcome: Outcome)
      requires role != Some(Owner)
      modifies this`members
      ensures role.Some? || permissions.Some? || status.Some? ==>
                State() == Next(old(State()), Update(author, target, role, permissions, status, version))
      ensures role.None? && permissions.None? && status.None? ==> outcome == EmptyUpdate && State() == old(State())
      ensures role.Some? || permissions.Some? || status.Some? ==>
                outcome == if target >= |old(members)| then NotFound
                           else if old(members)[target].user == author then SelfManagement
                           else if old(members)[target].role == Owner then OwnerNotManageable
                           else if !ActiveMember(old(State()), author) then AccessDenied
                           else if !MayUpdate(old(State()), author, target,
                                              Changed(old(members)[target], role, permissions, status, version))
                           then PermissionDenied else Done
    {
      if role.None? && permissions.None? && status.None? {
        return EmptyUpdate;
      }
      if target >= |members| {
        return NotFound;
      }
      var t := members[target];
      if t.user == author {
        return SelfManagement;
      }
      if t.role == Owner {
        return OwnerNotManageable;
      }
      var found := FindMember(author);
      if found.None? || members[found.value].status != Active {
        return AccessDenied;
      }
      var actor := members[found.value];
      var requested := if permissions.None? then t.permissions else MergeUnknown(permissions.value, t.permissions, version);
      if actor.role != Owner {
        var rights := Effective(actor.role, actor.permissions);
        var prospective := Effective(if role.Some? then role.value else t.role, requested);
        if !(Effective(t.role, t.permissions) <= rights) || !(prospective <= rights) {
          return PermissionDenied;
        }
      }
      if role.Some? { t := t.(role := role.value); }
      if permissions.Some? { t := t.(permissions := requested); }
      if status.Some? { t := t.(status := status.value); }
      members := members[target := t];
      outcome := Done;
    }

    method CountActiveOwners() returns (count: nat)
      ensures count == ActiveOwners(members)
    {
      count := 0;
      for n := 0 to |members|
        invariant count == ActiveOwners(members[..n])
      {
        assert members[..n + 1][..n] == members[..n];
        if members[n].role == Owner && members[n].status == Active { count := count + 1; }
      }
      assert members[..|members|] == members;
    }

    /** Two saves and a count: on a sound organisation the count never cancels the transfer. */
    method TransferOwnership(author: nat, target: nat) returns (outcome: Outcome)
      modifies this`members
      ensures outcome == Done || outcome == InvariantViolated <==> MayTransfer(old(State()), author, target)
      ensures !MayTransfer(old(State()), author, target) ==>
                outcome == if !ActiveMember(old(State()), author) || MemberAt(old(State()), author).role != Owner then AccessDenied
                           else if target >= |old(members)| then NotFound
                           else if old(members)[target].user == author then TargetIsOwner else TargetNotActive
      ensures outcome != InvariantViolated ==> State() == Next(old(State()), Transfer(author, target))
      ensures outcome == InvariantViolated ==> State() == old(State())
      ensures Sound(old(State())) ==> outcome != InvariantViolated
    {
      hide OneOwner, OnePerUser, OnePerInvitation, NoOwnerInvited, Writable, MemberOf, ActiveOwners;
      var found := FindMember(author);
      if found.None? || members[found.value].status != Active || members[found.value].role != Owner {
        return AccessDenied;
      }
      if target >= |members| {
        return NotFound;
      }
      if members[target].user == author {
        return TargetIsOwner;
      }
      if members[target].status != Active {
        return TargetNotActive;
      }
      if Sound(State()) {
        TransferNeedsItsOrder(State(), author, target);
      }
      ghost var before := State();
      var backup := members;
      members := members[found.value := members[found.value].(role := Admin)];
      members := members[target := members[target].(role := Owner)];
      assert members == Transferred(before, author, target);
      var count := CountActiveOwners();
      if count != 1 {
        members := backup;
        return InvariantViolated;
      }
      outcome := Done;
    }
  }
}
