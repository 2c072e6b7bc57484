/** The membership handlers of server/src/routes/family.js: the admin gate, family
    creation, adding a member (creating a placeholder user for an unknown email),
    changing a role and removing a member. Together the rules keep at least one
    admin in every family. The Family schema is not part of this model; a family
    is the record the handlers read and write. */
module FamilyRoutes {
  import opened Common

  const AdminRole: string := "admin"
  const MemberRole: string := "member"

  datatype Member = Member(userId: string, role: string)

  datatype Family = Family(id: string, name: Option<string>, members: seq<Member>, createdBy: string)

  datatype User = User(id: string, email: string, name: string, pendingSetup: bool)

  /** `members.find(m => m.userId === userId)`: the first entry for that user. */
  function FindMember(ms: seq<Member>, userId: string): (r: Option<nat>)
    ensures r.Some? ==> r.value < |ms| && ms[r.value].userId == userId
    ensures r.Some? ==> forall k :: 0 <= k < r.value ==> ms[k].userId != userId
    ensures r.None? ==> forall k :: 0 <= k < |ms| ==> ms[k].userId != userId
  {
    if |ms| == 0 then None
    else if ms[0].userId == userId then Some(0)
    else
      match FindMember(ms[1..], userId)
      case None => assert forall k :: 1 <= k < |ms| ==> ms[k] == ms[1..][k - 1]; None
      case Some(i) => Some(i + 1)
  }

  /** `members.filter(m => m.role === "admin").length` */
  function AdminCount(ms: seq<Member>): nat {
    if |ms| == 0 then 0 else (if ms[0].role == AdminRole then 1 else 0) + AdminCount(ms[1..])
  }

  ghost predicate IdsDistinct(ms: seq<Member>) {
    forall i, j :: 0 <= i < j < |ms| ==> ms[i].userId != ms[j].userId
  }

  /** What the handlers keep true of every family. */
  ghost predicate ValidFamily(f: Family) {
    AdminCount(f.members) >= 1 && IdsDistinct(f.members)
  }

  lemma {:induction false} AdminCountPositive(ms: seq<Member>, i: nat)
    requires i < |ms| && ms[i].role == AdminRole
    ensures AdminCount(ms) >= 1
  {
    if i > 0 {
      AdminCountPositive(ms[1..], i - 1);
    }
  }

  /** Two admin entries exist once the count reaches two. */
  lemma {:induction false} TwoAdmins(ms: seq<Member>) returns (i: nat, j: nat)
    requires AdminCount(ms) >= 2
    ensures i < j < |ms| && ms[i].role == AdminRole && ms[j].role == AdminRole
  {
    if ms[0].role == AdminRole {
      j := OneAdmin(ms[1..]);
      i, j := 0, j + 1;
    } else {
      i, j := TwoAdmins(ms[1..]);
      i, j := i + 1, j + 1;
    }
  }

  lemma {:induction false} OneAdmin(ms: seq<Member>) returns (i: nat)
    requires AdminCount(ms) >= 1
    ensures i < |ms| && ms[i].role == AdminRole
  {
    if ms[0].role == AdminRole {
      i := 0;
    } else {
      i := OneAdmin(ms[1..]);
      i := i + 1;
    }
  }

  /** Replacing one entry's role by a non-admin one lowers the count by at most one. */
  lemma {:induction false} AdminCountUpdate(ms: seq<Member>, i: nat, m: Member)
    requires i < |ms|
    ensures AdminCount(ms[i := m]) == AdminCount(ms)
      - (if ms[i].role == AdminRole then 1 else 0) + (if m.role == AdminRole then 1 else 0)
  {
    if i > 0 {
      AdminCountUpdate(ms[1..], i - 1, m);
      assert ms[i := m][1..] == ms[1..][i - 1 := m];
    }
  }

  lemma {:induction false} AdminCountAppend(ms: seq<Member>, m: Member)
    ensures AdminCount(ms + [m]) == AdminCount(ms) + (if m.role == AdminRole then 1 else 0)
  {
    if |ms| > 0 {
      AdminCountAppend(ms[1..], m);
      assert (ms + [m])[1..] == ms[1..] + [m];
    }
  }

  // ---------------------------------------------------------------------------
  // The gate and the per-family rules.

  /** The `isAdmin` middleware: 404 for an unknown family, 403 unless the caller's
      entry exists and has role "admin"; otherwise the family is handed on. */
  function AdminGate(families: map<string, Family>, familyId: string, caller: string): (r: Response<Family>)
    ensures r.Ok? || r.NotFound? || r.Forbidden?
    ensures r.NotFound? <==> familyId !in families
    ensures r.Ok? <==>
      (familyId in families
       && exists i :: 0 <= i < |families[familyId].members|
            && families[familyId].members[i].userId == caller
            && (forall k :: 0 <= k < i ==> families[familyId].members[k].userId != caller)
            && families[familyId].members[i].role == "admin")
    ensures r.Ok? ==> r.value == families[familyId]
  {
    if familyId !in families then NotFound
    else
      var f := families[familyId];
      match FindMember(f.members, caller)
      case None => Forbidden
      case Some(i) => if f.members[i].role == AdminRole then Ok(f) else Forbidden
  }

  /** POST / : the caller becomes the only member, as admin, and the creator. */
  function CreateFamily(id: string, name: Option<string>, caller: string): (f: Family)
    ensures f.members == [Member(caller, "admin")] && f.createdBy == caller
    ensures ValidFamily(f)
  {
    Family(id, name, [Member(caller, AdminRole)], caller)
  }

  /** The membership part of POST /:familyId/members for an already resolved user. */
  function AddMemberTo(f: Family, userId: string, role: Option<string>): (r: Response<Family>)
    ensures r.Ok? || r.BadRequest?
    ensures r.BadRequest? <==> exists k :: 0 <= k < |f.members| && f.members[k].userId == userId
    ensures r.Ok? ==> r.value == f.(members := f.members + [Member(userId, if Truthy(role) then role.value else "member")])
  {
    if FindMember(f.members, userId).Some? then BadRequest
    else Ok(f.(members := f.members + [Member(userId, if Truthy(role) then role.value else MemberRole)]))
  }

  /** PATCH /:familyId/members/:userId/role once past the gate. */
  function ChangeRoleIn(f: Family, target: string, role: string): (r: Response<Family>)
    ensures r.Ok? || r.NotFound? || r.BadRequest?
    ensures r.NotFound? <==> forall k :: 0 <= k < |f.members| ==> f.members[k].userId != target
    ensures r.BadRequest? <==>
      (FindMember(f.members, target).Some?
       && f.members[FindMember(f.members, target).value].role == "admin"
       && AdminCount(f.members) == 1)
    ensures r.Ok? ==> var i := FindMember(f.members, target).value;
      r.value == f.(members := f.members[i := Member(target, role)])
  {
    match FindMember(f.members, target)
    case None => NotFound
    case Some(i) =>
      if f.members[i].role == AdminRole && AdminCount(f.members) == 1 then BadRequest
      else Ok(f.(members := f.members[i := f.members[i].(role := role)]))
  }

  /** `members.filter(m => m.userId !== userId)` */
  function WithoutUser(ms: seq<Member>, userId: string): (r: seq<Member>)
    ensures |r| <= |ms|
    ensures forall k :: 0 <= k < |r| ==> r[k].userId != userId
  {
    if |ms| == 0 then []
    else if ms[0].userId == userId then WithoutUser(ms[1..], userId)
    else [ms[0]] + WithoutUser(ms[1..], userId)
  }

  lemma {:induction false} WithoutUserKeeps(ms: seq<Member>, userId: string, m: Member)
    ensures m in WithoutUser(ms, userId) <==> m in ms && m.userId != userId
  {
    if |ms| > 0 {
      WithoutUserKeeps(ms[1..], userId, m);
      assert ms == [ms[0]] + ms[1..];
    }
  }

  lemma {:induction false} WithoutUserDistinct(ms: seq<Member>, userId: string)
    requires IdsDistinct(ms)
    ensures IdsDistinct(WithoutUser(ms, userId))
  {
    if |ms| > 0 {
      WithoutUserDistinct(ms[1..], userId);
      if ms[0].userId != userId {
        var t := WithoutUser(ms[1..], userId);
        forall k | 0 <= k < |t| ensures t[k].userId != ms[0].userId {
          WithoutUserKeeps(ms[1..], userId, t[k]);
        }
      }
    }
  }

  /** DELETE /:familyId/members/:userId once past the gate. A caller removing
      themselves while the only admin is refused; everything else filters. */
  function RemoveFrom(f: Family, caller: string, target: string): (r: Response<Family>)
    ensures r.Ok? || r.BadRequest?
    ensures r.BadRequest? <==> target == caller && AdminCount(f.members) == 1
    ensures r.Ok? ==> r.value == f.(members := WithoutUser(f.members, target))
  {
    if target == caller && AdminCount(f.members) == 1 then BadRequest
    else Ok(f.(members := WithoutUser(f.members, target)))
  }

  /** Removing somebody who is not a member changes nothing. */
  lemma {:induction false} RemoveNonMember(ms: seq<Member>, userId: string)
    requires forall k :: 0 <= k < |ms| ==> ms[k].userId != userId
    ensures WithoutUser(ms, userId) == ms
  {
    if |ms| > 0 {
      RemoveNonMember(ms[1..], userId);
    }
  }

  // ---------------------------------------------------------------------------
  // The invariant.

  lemma AddMemberKeepsValid(f: Family, userId: string, role: Option<string>)
    requires ValidFamily(f)
    ensures AddMemberTo(f, userId, role).Ok? ==> ValidFamily(AddMemberTo(f, userId, role).value)
  {
    var r := AddMemberTo(f, userId, role);
    if r.Ok? {
      var m := Member(userId, if Truthy(role) then role.value else MemberRole);
      AdminCountAppend(f.members, m);
    }
  }

  /** A role change never removes the last admin, whoever asks. */
  lemma ChangeRoleKeepsValid(f: Family, target: string, role: string)
    requires ValidFamily(f)
    ensures ChangeRoleIn(f, target, role).Ok? ==> ValidFamily(ChangeRoleIn(f, target, role).value)
  {
    var r := ChangeRoleIn(f, target, role);
    if r.Ok? {
      var i := FindMember(f.members, target).value;
      AdminCountUpdate(f.members, i, Member(target, role));
      if f.members[i].role == AdminRole && role != AdminRole {
        assert AdminCount(f.members) >= 2;
      }
    }
  }

  /** Because the gate only lets admins through, a removal never removes the last admin. */
  lemma RemoveKeepsValid(f: Family, caller: string, target: string)
    requires ValidFamily(f)
    requires AdminGate(map[f.id := f], f.id, caller).Ok?
    ensures RemoveFrom(f, caller, target).Ok? ==> ValidFamily(RemoveFrom(f, caller, target).value)
  {
    var r := RemoveFrom(f, caller, target);
    if r.Ok? {
      var ms := f.members;
      WithoutUserDistinct(ms, target);
      var keep: nat;
      if target != caller {
        keep := FindMember(ms, caller).value;
      } else {
        var i, j := TwoAdmins(ms);
        keep := if ms[i].userId != target then i else j;
      }
      WithoutUserKeeps(ms, target, ms[keep]);
      var t := WithoutUser(ms, target);
      var k :| 0 <= k < |t| && t[k] == ms[keep];
      AdminCountPositive(t, k);
    }
  }

  /** `email.split("@")[0]`: the text before the first '@', or all of it. */
  function NameFromEmail(email: string): (r: string)
    ensures '@' !in r
    ensures |r| <= |email| && r == email[..|r|]
    ensures |r| < |email| ==> email[|r|] == '@'
  {
    if |email| == 0 || email[0] == '@' then ""
    else [email[0]] + NameFromEmail(email[1..])
  }

  /** `User.findOne({ email })`: the first user with that email. */
  function FindUser(users: seq<User>, email: string): (r: Option<nat>)
    ensures r.Some? ==> r.value < |users| && users[r.value].email == email
    ensures r.Some? ==> forall k :: 0 <= k < r.value ==> users[k].email != email
    ensures r.None? ==> forall k :: 0 <= k < |users| ==> users[k].email != email
  {
    if |users| == 0 then None
    else if users[0].email == email then Some(0)
    else
      assert forall k :: 1 <= k < |users| ==> users[k] == users[1..][k - 1];
      match FindUser(users[1..], email)
      case None => None
      case Some(i) => Some(i + 1)
  }

  class FamilyStore {
    var families: map<string, Family>
    var users: seq<User>

    ghost predicate Valid()
      reads this
    {
      forall id :: id in families ==> families[id].id == id && ValidFamily(families[id])
    }

    constructor ()
      ensures Valid() && families == map[] && users == []
    {
      families := map[];
      users := [];
    }

    /** POST / : the new family under a fresh ObjectId `id`. */
    method Create(id: string, name: Option<string>, caller: string) returns (r: Response<Family>)
      requires Valid() && id !in families
      modifies this
      ensures Valid()
      ensures r == Created(CreateFamily(id, name, caller))
      ensures families == old(families)[id := r.value] && users == old(users)
    {
      var f := CreateFamily(id, name, caller);
      families := families[id := f];
      r := Created(f);
    }

    /** POST /:familyId/members with body `{ email, role }`. An unknown email first
        creates a placeholder user `newUserId`, even when the request then fails. */
    method AddMember(familyId: string, caller: string, email: string, role: Option<string>, newUserId: string)
      returns (r: Response<Family>)
      requires Valid()
      modifies this
      ensures Valid()
      ensures !AdminGate(old(families), familyId, caller).Ok? ==>
        r == AdminGate(old(families), familyId, caller) && families == old(families) && users == old(users)
      ensures AdminGate(old(families), familyId, caller).Ok? ==>
        var uid := match FindUser(old(users), email)
                   case Some(i) => old(users)[i].id
                   case None => newUserId;
        (FindUser(old(users), email).None? ==>
           users == old(users) + [User(newUserId, email, NameFromEmail(email), true)])
        && (FindUser(old(users), email).Some? ==> users == old(users))
        && r == AddMemberTo(old(families)[familyId], uid, role)
        && families == (if r.Ok? then old(families)[familyId := r.value] else old(families))
    {
      var gate := AdminGate(families, familyId, caller);
      if !gate.Ok? {
        return gate;
      }
      var f := gate.value;
      var uid: string;
      match FindUser(users, email) {
        case Some(i) =>
          uid := users[i].id;
        case None =>
          users := users + [User(newUserId, email, NameFromEmail(email), true)];
          uid := newUserId;
      }
      r := AddMemberTo(f, uid, role);
      if r.Ok? {
        AddMemberKeepsValid(f, uid, role);
        families := families[familyId := r.value];
      }
    }

    /** PATCH /:familyId/members/:userId/role with body `{ role }`. */
    method ChangeRole(familyId: string, caller: string, target: string, role: string) returns (r: Response<Family>)
      requires Valid()
      modifies this
      ensures Valid() && users == old(users)
      ensures !AdminGate(old(families), familyId, caller).Ok? ==>
        r == AdminGate(old(families), familyId, caller) && families == old(families)
      ensures AdminGate(old(families), familyId, caller).Ok? ==>
        r == ChangeRoleIn(old(families)[familyId], target, role)
        && families == (if r.Ok? then old(families)[familyId := r.value] else old(families))
    {
      var gate := AdminGate(families, familyId, caller);
      if !gate.Ok? {
        return gate;
      }
      r := ChangeRoleIn(gate.value, target, role);
      if r.Ok? {
        ChangeRoleKeepsValid(gate.value, target, role);
        families := families[familyId := r.value];
      }
    }

    /** DELETE /:familyId/members/:userId */
    method RemoveMember(familyId: string, caller: string, target: string) returns (r: Response<Family>)
      requires Valid()
      modifies this
      ensures Valid() && users == old(users)
      ensures !AdminGate(old(families), familyId, caller).Ok? ==>
        r == AdminGate(old(families), familyId, caller) && families == old(families)
      ensures AdminGate(old(families), familyId, caller).Ok? ==>
        r == RemoveFrom(old(families)[familyId], caller, target)
        && families == (if r.Ok? then old(families)[familyId := r.value] else old(families))
    {
      var gate := AdminGate(families, familyId, caller);
      if !gate.Ok? {
        return gate;
      }
      var f := gate.value;
      assert f.id == familyId;
      assert map[f.id := f] == map[familyId := f];
      assert AdminGate(map[f.id := f], f.id, caller).Ok?;
      r := RemoveFrom(f, caller, target);
      if r.Ok? {
        RemoveKeepsValid(f, caller, target);
        families := families[familyId := r.value];
      }
    }
  }
}
