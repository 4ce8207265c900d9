/**
 * The identity status resolver and the deletion guard of the user identity
 * configuration endpoint: which of a user's linked identities may be
 * disconnected, how one of them is looked up by (category, id), and the
 * guarded removal of one identity.
 */
module IdentityConfig {
  import opened Wrappers

  /** The three kinds of identity a user can hold. */
  datatype Category = SocialIdentity | GlobalIdentity | OrgIdentity

  /** Whether an identity may be disconnected, and if not, why not. */
  datatype Status = CanDisconnect | NeededForGlobalAuth | NeededForOrgAuth

  /**
   * One stored identity row, one variant per table: a social-auth row, a
   * global `Identity` row, or an org-bound `AuthIdentity` row, which carries
   * the `allow_unlinked` flag of its organization's auth provider.
   */
  datatype IdentityRow =
    | UserSocialAuth(id: int, userId: int)
    | Identity(id: int, userId: int)
    | AuthIdentity(id: int, userId: int, allowUnlinked: bool)

  type SocialRow = r: IdentityRow | r.UserSocialAuth? witness UserSocialAuth(0, 0)
  type GlobalRow = r: IdentityRow | r.Identity? witness Identity(0, 0)
  type OrgRow = r: IdentityRow | r.AuthIdentity? witness AuthIdentity(0, 0, false)

  function CategoryOf(r: IdentityRow): Category {
    match r
    case UserSocialAuth(_, _) => SocialIdentity
    case Identity(_, _) => GlobalIdentity
    case AuthIdentity(_, _, _) => OrgIdentity
  }

  /** The part of a user the resolver looks at. */
  datatype User = User(id: int, hasUsablePassword: bool)

  /** An identity row wrapped with its resolved status. */
  datatype UserIdentityConfig = UserIdentityConfig(obj: IdentityRow, status: Status)

  /** True when `c` is the identity of kind `category` with id `id`. */
  predicate Matches(c: UserIdentityConfig, category: Category, id: int) {
    CategoryOf(c.obj) == category && c.obj.id == id
  }

  // ---------------------------------------------------------------------------
  // Status rules
  // ---------------------------------------------------------------------------

  /** The status shared by all of a user's global identities. */
  function GlobalIdentityStatus(hasPassword: bool, globalCount: nat): (st: Status)
    ensures st == CanDisconnect <==> hasPassword || globalCount > 1
    ensures st != NeededForOrgAuth
  {
    if hasPassword || globalCount > 1 then CanDisconnect else NeededForGlobalAuth
  }

  /** The status of one org-bound identity; other org identities never count. */
  function OrgIdentityStatus(obj: OrgRow, hasPassword: bool, globalCount: nat): (st: Status)
    ensures st == NeededForOrgAuth <==> !obj.allowUnlinked
    ensures obj.allowUnlinked ==> (st == CanDisconnect <==> hasPassword || globalCount > 0)
  {
    if !obj.allowUnlinked then NeededForOrgAuth
    else if hasPassword || globalCount > 0 then CanDisconnect
    else NeededForGlobalAuth
  }

  function WrapSocial(objs: seq<SocialRow>): (r: seq<UserIdentityConfig>)
    ensures |r| == |objs|
    ensures forall i :: 0 <= i < |objs| ==> r[i] == UserIdentityConfig(objs[i], CanDisconnect)
  {
    seq(|objs|, i requires 0 <= i < |objs| => UserIdentityConfig(objs[i], CanDisconnect))
  }

  function WrapGlobal(objs: seq<GlobalRow>, status: Status): (r: seq<UserIdentityConfig>)
    ensures |r| == |objs|
    ensures forall i :: 0 <= i < |objs| ==> r[i] == UserIdentityConfig(objs[i], status)
  {
    seq(|objs|, i requires 0 <= i < |objs| => UserIdentityConfig(objs[i], status))
  }

  function WrapOrg(objs: seq<OrgRow>, hasPassword: bool, globalCount: nat): (r: seq<UserIdentityConfig>)
    ensures |r| == |objs|
    ensures forall i :: 0 <= i < |objs| ==>
      r[i] == UserIdentityConfig(objs[i], OrgIdentityStatus(objs[i], hasPassword, globalCount))
  {
    seq(|objs|, i requires 0 <= i < |objs| => UserIdentityConfig(objs[i], OrgIdentityStatus(objs[i], hasPassword, globalCount)))
  }

  /**
   * All of a user's identities with their statuses: the social ones, then
   * the global ones, then the org-bound ones, one entry per input row.
   */
  function GetIdentities(hasPassword: bool, social: seq<SocialRow>, global: seq<GlobalRow>, org: seq<OrgRow>)
    : (r: seq<UserIdentityConfig>)
    ensures |r| == |social| + |global| + |org|
  {
    WrapSocial(social)
    + WrapGlobal(global, GlobalIdentityStatus(hasPassword, |global|))
    + WrapOrg(org, hasPassword, |global|)
  }

  /** Entry positions: the social rows, then the global rows, then the org rows, each in input order. */
  lemma GetIdentitiesOrder(hasPassword: bool, social: seq<SocialRow>, global: seq<GlobalRow>, org: seq<OrgRow>)
    ensures var r := GetIdentities(hasPassword, social, global, org);
      && (forall i :: 0 <= i < |social| ==> r[i].obj == social[i])
      && (forall i :: 0 <= i < |global| ==> r[|social| + i].obj == global[i])
      && (forall i :: 0 <= i < |org| ==> r[|social| + |global| + i].obj == org[i])
  {
  }

  /** Every social identity can be disconnected, whatever else the user holds. */
  lemma SocialIdentitiesCanDisconnect(hasPassword: bool, social: seq<SocialRow>, global: seq<GlobalRow>,
                                      org: seq<OrgRow>, i: nat)
    requires i < |social|
    ensures GetIdentities(hasPassword, social, global, org)[i].status == CanDisconnect
  {
  }

  /**
   * All global identities share one status: CanDisconnect exactly when the
   * user has a usable password or more than one global identity, and
   * NeededForGlobalAuth otherwise.
   */
  lemma GlobalIdentitiesShareStatus(hasPassword: bool, social: seq<SocialRow>, global: seq<GlobalRow>,
                                    org: seq<OrgRow>, i: nat)
    requires i < |global|
    ensures var e := GetIdentities(hasPassword, social, global, org)[|social| + i];
      && (e.status == CanDisconnect <==> hasPassword || |global| > 1)
      && (e.status != CanDisconnect ==> e.status == NeededForGlobalAuth)
  {
    var r := GetIdentities(hasPassword, social, global, org);
    var g := WrapGlobal(global, GlobalIdentityStatus(hasPassword, |global|));
    assert r[|social| + i] == g[i];
  }

  /**
   * An org identity whose provider does not allow unlinking is needed for
   * org auth; otherwise it can be disconnected exactly when the user has a
   * usable password or at least one global identity.
   */
  lemma OrgIdentityStatusRules(hasPassword: bool, social: seq<SocialRow>, global: seq<GlobalRow>,
                               org: seq<OrgRow>, i: nat)
    requires i < |org|
    ensures var e := GetIdentities(hasPassword, social, global, org)[|social| + |global| + i];
      && (!org[i].allowUnlinked ==> e.status == NeededForOrgAuth)
      && (org[i].allowUnlinked ==>
            (e.status == CanDisconnect <==> hasPassword || |global| > 0)
            && (e.status != CanDisconnect ==> e.status == NeededForGlobalAuth))
  {
    var r := GetIdentities(hasPassword, social, global, org);
    var o := WrapOrg(org, hasPassword, |global|);
    assert r[|social| + |global| + i] == o[i];
  }

  /**
   * Org identities never count toward the fallback: replacing the org list
   * leaves every social and global entry exactly as it was, and the status
   * of an org row does not depend on the other org rows.
   */
  lemma OrgIdentitiesNeverCountAsFallback(hasPassword: bool, social: seq<SocialRow>, global: seq<GlobalRow>,
                                          org: seq<OrgRow>, org': seq<OrgRow>, i: nat, j: nat)
    requires i < |social| + |global|
    requires j < |org| && j < |org'| && org[j] == org'[j]
    ensures GetIdentities(hasPassword, social, global, org)[i] == GetIdentities(hasPassword, social, global, org')[i]
    ensures GetIdentities(hasPassword, social, global, org)[|social| + |global| + j]
         == GetIdentities(hasPassword, social, global, org')[|social| + |global| + j]
  {
    var st := GlobalIdentityStatus(hasPassword, |global|);
    var prefix := WrapSocial(social) + WrapGlobal(global, st);
    assert GetIdentities(hasPassword, social, global, org) == prefix + WrapOrg(org, hasPassword, |global|);
    assert GetIdentities(hasPassword, social, global, org') == prefix + WrapOrg(org', hasPassword, |global|);
  }

  /**
   * The worked example: without a password a single global identity is
   * needed for global auth; with a second one both can be disconnected.
   */
  lemma SecondGlobalIdentityFreesBoth(g1: GlobalRow, g2: GlobalRow)
    ensures GetIdentities(false, [], [g1], []) == [UserIdentityConfig(g1, NeededForGlobalAuth)]
    ensures GetIdentities(false, [], [g1, g2], [])
         == [UserIdentityConfig(g1, CanDisconnect), UserIdentityConfig(g2, CanDisconnect)]
  {
  }

  // ---------------------------------------------------------------------------
  // Lookup by (category, id)
  // ---------------------------------------------------------------------------

  /** The first entry of `configs` of kind `category` with id `id`, if any. */
  function FindIdentity(configs: seq<UserIdentityConfig>, category: Category, id: int)
    : (r: Option<UserIdentityConfig>)
    ensures r.None? <==> forall k :: 0 <= k < |configs| ==> !Matches(configs[k], category, id)
    ensures r.Some? ==> exists k :: (0 <= k < |configs| && configs[k] == r.value
      && Matches(configs[k], category, id)
      && forall j :: 0 <= j < k ==> !Matches(configs[j], category, id))
  {
    if configs == [] then None
    else if Matches(configs[0], category, id) then
      Some(configs[0])
    else
      var r := FindIdentity(configs[1..], category, id);
      assert r.Some? ==> exists k :: (1 <= k < |configs| && configs[k] == r.value
        && Matches(configs[k], category, id)
        && forall j :: 0 <= j < k ==> !Matches(configs[j], category, id)) by {
        if r.Some? {
          var k :| 0 <= k < |configs[1..]| && configs[1..][k] == r.value
            && Matches(configs[1..][k], category, id)
            && forall j :: 0 <= j < k ==> !Matches(configs[1..][j], category, id);
          assert configs[k + 1] == r.value;
          assert forall j :: 0 <= j < k + 1 ==> !Matches(configs[j], category, id) by {
            forall j | 0 <= j < k + 1 ensures !Matches(configs[j], category, id) {
              if j > 0 { assert configs[j] == configs[1..][j - 1]; }
            }
          }
        }
      }
      r
  }

  // ---------------------------------------------------------------------------
  // The identity tables
  // ---------------------------------------------------------------------------

  /** A snapshot of the three identity tables, rows of every user. */
  datatype IdentityTables = IdentityTables(social: seq<SocialRow>, global: seq<GlobalRow>, org: seq<OrgRow>)

  /** The table that holds rows of kind `c`. */
  function TableOf(t: IdentityTables, c: Category): seq<IdentityRow> {
    match c
    case SocialIdentity => t.social
    case GlobalIdentity => t.global
    case OrgIdentity => t.org
  }

  /** `x` is a row of the table of its own kind. */
  predicate StoredIn(t: IdentityTables, x: IdentityRow) {
    match x
    case UserSocialAuth(_, _) => x in t.social
    case Identity(_, _) => x in t.global
    case AuthIdentity(_, _, _) => x in t.org
  }

  /** The user owns a row of kind `c` with id `id`. */
  ghost predicate HasIdentity(user: User, t: IdentityTables, c: Category, id: int) {
    exists x :: StoredIn(t, x) && CategoryOf(x) == c && x.userId == user.id && x.id == id
  }

  /** Row ids are unique within one table (they are its primary key). */
  predicate DistinctIds(rows: seq<IdentityRow>) {
    forall i, j :: 0 <= i < j < |rows| ==> rows[i].id != rows[j].id
  }

  predicate WellFormed(t: IdentityTables) {
    DistinctIds(t.social) && DistinctIds(t.global) && DistinctIds(t.org)
  }

  /** The rows of one table that belong to the user `userId`, in table order. */
  function OwnedBy(rows: seq<IdentityRow>, userId: int): (r: seq<IdentityRow>)
    ensures forall x :: x in r <==> x in rows && x.userId == userId
    ensures |r| <= |rows|
  {
    if rows == [] then []
    else if rows[0].userId == userId then [rows[0]] + OwnedBy(rows[1..], userId)
    else OwnedBy(rows[1..], userId)
  }

  /** The rows of one table without those whose id is `id`. */
  function WithoutId(rows: seq<IdentityRow>, id: int): (r: seq<IdentityRow>)
    ensures forall x :: x in r <==> x in rows && x.id != id
  {
    if rows == [] then []
    else if rows[0].id == id then WithoutId(rows[1..], id)
    else [rows[0]] + WithoutId(rows[1..], id)
  }

  /** `UserSocialAuth.objects.filter(user=user)`. */
  function SocialOf(t: IdentityTables, userId: int): (r: seq<SocialRow>)
    ensures forall x :: x in r <==> x in t.social && x.userId == userId
  {
    OwnedBy(t.social, userId)
  }

  /** `Identity.objects.filter(user=user)`. */
  function GlobalOf(t: IdentityTables, userId: int): (r: seq<GlobalRow>)
    ensures forall x :: x in r <==> x in t.global && x.userId == userId
  {
    OwnedBy(t.global, userId)
  }

  /** `AuthIdentity.objects.filter(user=user)`. */
  function OrgOf(t: IdentityTables, userId: int): (r: seq<OrgRow>)
    ensures forall x :: x in r <==> x in t.org && x.userId == userId
  {
    OwnedBy(t.org, userId)
  }

  /**
   * The identities of `user` with their statuses, fetched from the tables.
   * Every entry is one of the user's own rows, from the table of its kind
   * (OwnedRowIsResolved gives the converse).
   */
  function Resolve(user: User, t: IdentityTables): (r: seq<UserIdentityConfig>)
    ensures forall e :: e in r ==> e.obj.userId == user.id && StoredIn(t, e.obj)
  {
    var social, global, org := SocialOf(t, user.id), GlobalOf(t, user.id), OrgOf(t, user.id);
    ResolvedRows(user, t, social, global, org);
    GetIdentities(user.hasUsablePassword, social, global, org)
  }

  /** Every entry of GetIdentities over the owned lists is an owned row of the table of its kind. */
  lemma ResolvedRows(user: User, t: IdentityTables, social: seq<SocialRow>, global: seq<GlobalRow>, org: seq<OrgRow>)
    requires social == SocialOf(t, user.id)
    requires global == GlobalOf(t, user.id)
    requires org == OrgOf(t, user.id)
    ensures var r := GetIdentities(user.hasUsablePassword, social, global, org);
      forall e :: e in r ==> e.obj.userId == user.id && StoredIn(t, e.obj)
  {
    var r := GetIdentities(user.hasUsablePassword, social, global, org);
    GetIdentitiesOrder(user.hasUsablePassword, social, global, org);
    forall e | e in r ensures e.obj.userId == user.id && StoredIn(t, e.obj) {
      var k :| 0 <= k < |r| && r[k] == e;
      if k < |social| {
        assert e.obj in social;
      } else if k < |social| + |global| {
        assert r[|social| + (k - |social|)].obj == global[k - |social|];
        assert e.obj in global;
      } else {
        assert r[|social| + |global| + (k - |social| - |global|)].obj == org[k - |social| - |global|];
        assert e.obj in org;
      }
    }
  }

  /** Every row of the user's, in any table, appears among the resolved identities. */
  lemma OwnedRowIsResolved(user: User, t: IdentityTables, x: IdentityRow)
    requires StoredIn(t, x) && x.userId == user.id
    ensures exists e :: e in Resolve(user, t) && e.obj == x
  {
    var social, global, org := SocialOf(t, user.id), GlobalOf(t, user.id), OrgOf(t, user.id);
    var r := Resolve(user, t);
    assert r == GetIdentities(user.hasUsablePassword, social, global, org);
    GetIdentitiesOrder(user.hasUsablePassword, social, global, org);
    match x
    case UserSocialAuth(_, _) =>
      var k :| 0 <= k < |social| && social[k] == x;
      assert r[k] in r;
    case Identity(_, _) =>
      var k :| 0 <= k < |global| && global[k] == x;
      assert r[|social| + k] in r;
    case AuthIdentity(_, _, _) =>
      var k :| 0 <= k < |org| && org[k] == x;
      assert r[|social| + |global| + k] in r;
  }

  /** The tables after removing the row of kind `c` with id `id`. */
  function DeleteFrom(t: IdentityTables, c: Category, id: int): (r: IdentityTables)
    ensures forall x :: StoredIn(r, x) <==> StoredIn(t, x) && !(CategoryOf(x) == c && x.id == id)
    ensures c != SocialIdentity ==> r.social == t.social
    ensures c != GlobalIdentity ==> r.global == t.global
    ensures c != OrgIdentity ==> r.org == t.org
  {
    match c
    case SocialIdentity =>
      var s: seq<SocialRow> := WithoutId(t.social, id);
      t.(social := s)
    case GlobalIdentity =>
      var g: seq<GlobalRow> := WithoutId(t.global, id);
      t.(global := g)
    case OrgIdentity =>
      var o: seq<OrgRow> := WithoutId(t.org, id);
      t.(org := o)
  }

  // ---------------------------------------------------------------------------
  // The deletion guard
  // ---------------------------------------------------------------------------

  /** The HTTP outcomes of a delete request: 204, 404 and 405. */
  datatype Response = NoContent | NotFound | MethodNotAllowed

  /**
   * The guard as one step: re-resolve the user's identities, answer
   * NotFound when none matches, MethodNotAllowed when the match cannot be
   * disconnected, and otherwise remove that row.
   */
  function DeleteOutcome(user: User, t: IdentityTables, c: Category, id: int): (r: (Response, IdentityTables))
    ensures r.0 == NotFound <==> FindIdentity(Resolve(user, t), c, id).None?
    ensures r.0 == NoContent <==>
      FindIdentity(Resolve(user, t), c, id).Some? && FindIdentity(Resolve(user, t), c, id).value.status == CanDisconnect
    ensures r.0 != NoContent ==> r.1 == t
    ensures r.0 == NoContent ==> r.1 == DeleteFrom(t, c, id)
  {
    match FindIdentity(Resolve(user, t), c, id)
    case None => (NotFound, t)
    case Some(e) =>
      if e.status != CanDisconnect then (MethodNotAllowed, t) else (NoContent, DeleteFrom(t, c, id))
  }

  /**
   * NotFound exactly when the user owns no identity of that kind and id (in
   * particular when the row exists but belongs to another user); the tables
   * are then left as they were.
   */
  lemma DeleteNotFound(user: User, t: IdentityTables, c: Category, id: int)
    ensures DeleteOutcome(user, t, c, id).0 == NotFound <==> !HasIdentity(user, t, c, id)
    ensures DeleteOutcome(user, t, c, id).0 == NotFound ==> DeleteOutcome(user, t, c, id).1 == t
  {
    var r := Resolve(user, t);
    if HasIdentity(user, t, c, id) {
      var x :| StoredIn(t, x) && CategoryOf(x) == c && x.userId == user.id && x.id == id;
      OwnedRowIsResolved(user, t, x);
      var e :| e in r && e.obj == x;
      var k :| 0 <= k < |r| && r[k] == e;
      assert Matches(r[k], c, id);
    }
    var found := FindIdentity(r, c, id);
    if found.Some? {
      FindIdentityIn(r, c, id);
      assert found.value in r;
      assert StoredIn(t, found.value.obj);
    }
  }

  /**
   * MethodNotAllowed exactly when the user's identity of that kind and id
   * is not CanDisconnect; the tables are then left as they were.
   */
  lemma DeleteNotAllowed(user: User, t: IdentityTables, c: Category, id: int)
    ensures var found := FindIdentity(Resolve(user, t), c, id);
      DeleteOutcome(user, t, c, id).0 == MethodNotAllowed <==>
        found.Some? && Matches(found.value, c, id) && found.value.status != CanDisconnect
    ensures DeleteOutcome(user, t, c, id).0 == MethodNotAllowed ==> DeleteOutcome(user, t, c, id).1 == t
  {
  }

  /** In a table with unique ids, removing by id drops exactly the one row. */
  lemma {:induction false} WithoutIdRemovesOne(rows: seq<IdentityRow>, k: nat)
    requires DistinctIds(rows) && k < |rows|
    ensures WithoutId(rows, rows[k].id) == rows[..k] + rows[k + 1..]
  {
    var id := rows[k].id;
    if k == 0 {
      assert rows[1..] == rows[0 + 1..];
      WithoutIdAbsent(rows[1..], id);
    } else {
      assert DistinctIds(rows[1..]);
      WithoutIdRemovesOne(rows[1..], k - 1);
      assert rows[1..][k - 1] == rows[k];
      assert rows[0].id != id;
      assert rows[..k] == [rows[0]] + rows[1..][..k - 1];
      assert rows[k + 1..] == rows[1..][k - 1 + 1..];
    }
  }

  /** Removing an id that no row has leaves the table as it was. */
  lemma {:induction false} WithoutIdAbsent(rows: seq<IdentityRow>, id: int)
    requires forall i :: 0 <= i < |rows| ==> rows[i].id != id
    ensures WithoutId(rows, id) == rows
  {
    if rows != [] {
      WithoutIdAbsent(rows[1..], id);
      assert [rows[0]] + rows[1..] == rows;
    }
  }

  /** Removing rows keeps the ids of the rest unique. */
  lemma {:induction false} WithoutIdKeepsDistinct(rows: seq<IdentityRow>, id: int)
    requires DistinctIds(rows)
    ensures DistinctIds(WithoutId(rows, id))
  {
    if rows != [] {
      assert DistinctIds(rows[1..]);
      WithoutIdKeepsDistinct(rows[1..], id);
      if rows[0].id != id {
        var rest := WithoutId(rows[1..], id);
        forall j | 0 <= j < |rest| ensures rows[0].id != rest[j].id {
          assert rest[j] in rows[1..];
          var m :| 0 <= m < |rows[1..]| && rows[1..][m] == rest[j];
          assert rows[m + 1] == rest[j];
        }
        var r := [rows[0]] + rest;
        forall i, j | 0 <= i < j < |r| ensures r[i].id != r[j].id {
          if i == 0 {
            assert r[j] == rest[j - 1];
          } else {
            assert r[i] == rest[i - 1] && r[j] == rest[j - 1];
          }
        }
      }
    }
  }

  lemma DeleteFromKeepsWellFormed(t: IdentityTables, c: Category, id: int)
    requires WellFormed(t)
    ensures WellFormed(DeleteFrom(t, c, id))
  {
    WithoutIdKeepsDistinct(t.social, id);
    WithoutIdKeepsDistinct(t.global, id);
    WithoutIdKeepsDistinct(t.org, id);
  }

  /**
   * A successful delete removes exactly the user's one row of that kind and
   * id and touches no other row of any table.
   */
  lemma DeleteRemovesOnlyTarget(user: User, t: IdentityTables, c: Category, id: int)
    requires WellFormed(t)
    requires DeleteOutcome(user, t, c, id).0 == NoContent
    ensures var t' := DeleteOutcome(user, t, c, id).1;
      && (exists k :: 0 <= k < |TableOf(t, c)| && TableOf(t, c)[k].id == id && TableOf(t, c)[k].userId == user.id
            && TableOf(t', c) == TableOf(t, c)[..k] + TableOf(t, c)[k + 1..])
      && (c != SocialIdentity ==> t'.social == t.social)
      && (c != GlobalIdentity ==> t'.global == t.global)
      && (c != OrgIdentity ==> t'.org == t.org)
  {
    var r := Resolve(user, t);
    var e := FindIdentity(r, c, id).value;
    var j :| 0 <= j < |r| && r[j] == e && Matches(r[j], c, id);
    assert e in r;
    var rows := TableOf(t, c);
    assert e.obj in rows by {
      match c
      case SocialIdentity =>
      case GlobalIdentity =>
      case OrgIdentity =>
    }
    var k :| 0 <= k < |rows| && rows[k] == e.obj;
    WithoutIdRemovesOne(rows, k);
  }

  /** After a successful delete, re-resolving finds no identity of that kind and id. */
  lemma DeletedIdentityIsGone(user: User, t: IdentityTables, c: Category, id: int)
    requires DeleteOutcome(user, t, c, id).0 == NoContent
    ensures FindIdentity(Resolve(user, DeleteOutcome(user, t, c, id).1), c, id).None?
  {
    var t' := DeleteFrom(t, c, id);
    var r' := Resolve(user, t');
    forall k | 0 <= k < |r'| ensures !Matches(r'[k], c, id) {
      var e := r'[k];
      assert e in r';
      assert StoredIn(t', e.obj);
    }
  }

  /** A successful delete of a global identity never leaves a user without a password locked out. */
  lemma DeleteKeepsGlobalLogin(user: User, t: IdentityTables, id: int)
    requires WellFormed(t)
    requires DeleteOutcome(user, t, GlobalIdentity, id).0 == NoContent
    ensures var t' := DeleteOutcome(user, t, GlobalIdentity, id).1;
      user.hasUsablePassword || |GlobalOf(t', user.id)| >= 1
  {
    if !user.hasUsablePassword {
      GlobalDeleteNeedsTwo(user, t, id);
      RemovalLeavesAnother(t.global, user.id, id);
    }
  }

  /** Without a password, a global identity is only deletable while the user holds two or more. */
  lemma GlobalDeleteNeedsTwo(user: User, t: IdentityTables, id: int)
    requires !user.hasUsablePassword
    requires FindIdentity(Resolve(user, t), GlobalIdentity, id).Some? && FindIdentity(Resolve(user, t), GlobalIdentity, id).value.status == CanDisconnect
    ensures |GlobalOf(t, user.id)| > 1
  {
    var r := Resolve(user, t);
    var e := FindIdentity(r, GlobalIdentity, id).value;
    var social, global, org := SocialOf(t, user.id), GlobalOf(t, user.id), OrgOf(t, user.id);
    assert r == GetIdentities(false, social, global, org);
    assert FindIdentity(r, GlobalIdentity, id).Some?;
    FindIdentityIn(r, GlobalIdentity, id);
    GlobalEntryStatus(false, social, global, org, e);
  }

  /** When a user owns two rows with distinct ids, removing one id leaves one of them. */
  lemma RemovalLeavesAnother(rows: seq<IdentityRow>, userId: int, id: int)
    requires DistinctIds(rows) && |OwnedBy(rows, userId)| > 1
    ensures |OwnedBy(WithoutId(rows, id), userId)| >= 1
  {
    var owned := OwnedBy(rows, userId);
    OwnedByKeepsDistinct(rows, userId);
    var survivor := if owned[0].id != id then owned[0] else owned[1];
    assert survivor.id != id by {
      assert owned[0].id != owned[1].id;
    }
    assert survivor in owned;
    assert survivor in OwnedBy(WithoutId(rows, id), userId);
  }

  /** Every global entry carries the one status shared by the user's global identities. */
  lemma GlobalEntryStatus(hasPassword: bool, social: seq<SocialRow>, global: seq<GlobalRow>, org: seq<OrgRow>,
                          e: UserIdentityConfig)
    requires e in GetIdentities(hasPassword, social, global, org) && CategoryOf(e.obj) == GlobalIdentity
    ensures e.status == GlobalIdentityStatus(hasPassword, |global|)
  {
    var ws := WrapSocial(social);
    var wg := WrapGlobal(global, GlobalIdentityStatus(hasPassword, |global|));
    var wo := WrapOrg(org, hasPassword, |global|);
    assert e in ws + wg + wo;
    assert e in wg;
    var k :| 0 <= k < |wg| && wg[k] == e;
  }

  /** Selecting a user's rows keeps the ids unique. */
  lemma {:induction false} OwnedByKeepsDistinct(rows: seq<IdentityRow>, userId: int)
    requires DistinctIds(rows)
    ensures DistinctIds(OwnedBy(rows, userId))
  {
    if rows != [] {
      assert DistinctIds(rows[1..]);
      OwnedByKeepsDistinct(rows[1..], userId);
      if rows[0].userId == userId {
        var rest := OwnedBy(rows[1..], userId);
        forall j | 0 <= j < |rest| ensures rows[0].id != rest[j].id {
          assert rest[j] in rows[1..];
          var m :| 0 <= m < |rows[1..]| && rows[1..][m] == rest[j];
          assert rows[m + 1] == rest[j];
        }
        var r := [rows[0]] + rest;
        forall i, j | 0 <= i < j < |r| ensures r[i].id != r[j].id {
          if i == 0 {
            assert r[j] == rest[j - 1];
          } else {
            assert r[i] == rest[i - 1] && r[j] == rest[j - 1];
          }
        }
      }
    }
  }

  // ---------------------------------------------------------------------------
  // The endpoint over the stored tables
  // ---------------------------------------------------------------------------

  /** The three identity tables as the endpoint sees them. */
  class IdentityStore {
    var socialAuths: seq<SocialRow>
    var identities: seq<GlobalRow>
    var authIdentities: seq<OrgRow>

    ghost predicate Valid()
      reads this
    {
      WellFormed(Tables())
    }

    function Tables(): IdentityTables
      reads this
    {
      IdentityTables(socialAuths, identities, authIdentities)
    }

    constructor (t: IdentityTables)
      requires WellFormed(t)
      ensures Valid() && Tables() == t
    {
      socialAuths, identities, authIdentities := t.social, t.global, t.org;
    }

    /** Scans the user's resolved identities and returns the first of kind `category` with id `id`. */
    method GetIdentity(user: User, category: Category, id: int) returns (r: Option<UserIdentityConfig>)
      ensures r.None? <==> forall e :: e in Resolve(user, Tables()) ==> !Matches(e, category, id)
      ensures r.Some? ==> r.value in Resolve(user, Tables()) && Matches(r.value, category, id)
      ensures r == FindIdentity(Resolve(user, Tables()), category, id)
    {
      var identities := Resolve(user, Tables());
      r := FindFirst(identities, category, id);
    }

    /**
     * The delete endpoint, as one atomic step: 404 when the user has no such
     * identity, 405 when it cannot be disconnected, and otherwise 204 after
     * removing that one row.
     */
    method Delete(user: User, category: Category, id: int) returns (response: Response)
      requires Valid()
      modifies this
      ensures Valid()
      ensures (response, Tables()) == DeleteOutcome(user, old(Tables()), category, id)
      ensures response != NoContent ==> Tables() == old(Tables())
      ensures response == NoContent ==> Tables() == DeleteFrom(old(Tables()), category, id)
    {
      var identity := GetIdentity(user, category, id);
      if identity.None? {
        return NotFound;
      }
      if identity.value.status != CanDisconnect {
        return MethodNotAllowed;
      }
      // The row is removed from the table of its kind by primary key.
      var t := DeleteFrom(Tables(), category, id);
      DeleteFromKeepsWellFormed(Tables(), category, id);
      socialAuths, identities, authIdentities := t.social, t.global, t.org;
      return NoContent;
    }
  }

  /** The scan of `_get_identity`: walks the resolved identities and stops at the first match. */
  method FindFirst(identities: seq<UserIdentityConfig>, category: Category, id: int)
    returns (r: Option<UserIdentityConfig>)
    ensures r.None? <==> forall e :: e in identities ==> !Matches(e, category, id)
    ensures r.Some? ==> r.value in identities && Matches(r.value, category, id)
    ensures r == FindIdentity(identities, category, id)
  {
    var i := 0;
    while i < |identities|
      invariant 0 <= i <= |identities|
      invariant forall j :: 0 <= j < i ==> !Matches(identities[j], category, id)
    {
      if Matches(identities[i], category, id) {
        FirstMatchIsFound(identities, category, id, i);
        return Some(identities[i]);
      }
      i := i + 1;
    }
    return None;
  }

  /** A found identity is an entry of the sequence and matches the request. */
  lemma FindIdentityIn(configs: seq<UserIdentityConfig>, category: Category, id: int)
    requires FindIdentity(configs, category, id).Some?
    ensures FindIdentity(configs, category, id).value in configs
    ensures Matches(FindIdentity(configs, category, id).value, category, id)
  {
  }

  /** The first matching position of a sequence is what FindIdentity returns. */
  lemma {:induction false} FirstMatchIsFound(configs: seq<UserIdentityConfig>, category: Category, id: int, i: nat)
    requires i < |configs| && Matches(configs[i], category, id)
    requires forall j :: 0 <= j < i ==> !Matches(configs[j], category, id)
    ensures FindIdentity(configs, category, id) == Some(configs[i])
  {
    if i > 0 {
      FirstMatchIsFound(configs[1..], category, id, i - 1);
    }
  }
}
