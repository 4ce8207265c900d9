/**
 * One-time verification keys for identity-provider migration: issuing a
 * random code, storing its record under a namespaced key with a ten-minute
 * expiry, and checking whether a code's key is still present.
 */
module IdpMigration {
  import opened Wrappers

  /** Chooses which node of the shared cache cluster holds the keys; one store models that node. */
  const RedisKey: string := "verificationKeyStorage"

  /** Ten minutes, in seconds. */
  const TtlSeconds: nat := 10 * 60

  const KeyPrefix: string := "auth:one-time-key:"

  const CodeLength: nat := 32

  /** ASCII letters followed by ASCII digits, the alphabet codes are drawn from. */
  const CodeAlphabet: string := "abcdefghijklmnopqrstuvwxyzABCDEFGHIJKLMNOPQRSTUVWXYZ0123456789"

  /** What a random code drawn for a key looks like: 32 letters or digits. */
  predicate IsVerificationCode(code: string) {
    |code| == CodeLength && forall i :: 0 <= i < |code| ==> code[i] in CodeAlphabet
  }

  /** The cache key of a verification code: the namespace followed by the code. */
  function GetRedisKey(code: string): (key: string)
    ensures |key| == |KeyPrefix| + |code|
    ensures key[..|KeyPrefix|] == KeyPrefix && key[|KeyPrefix|..] == code
  {
    KeyPrefix + code
  }

  /** Distinct codes have distinct keys, so a lookup reads exactly the key its code was stored under. */
  lemma GetRedisKeyInjective(a: string, b: string)
    requires GetRedisKey(a) == GetRedisKey(b)
    ensures a == b
  {
    assert a == GetRedisKey(a)[|KeyPrefix|..];
  }

  /** A key of the namespace whose code part is a well-formed code. */
  predicate IsCodeKey(key: string) {
    |KeyPrefix| <= |key| && key[..|KeyPrefix|] == KeyPrefix && IsVerificationCode(key[|KeyPrefix|..])
  }

  /** The four fields of a stored verification record. */
  datatype VerificationValue = VerificationValue(userId: int, email: string, memberId: int, identityId: string)

  /** The key of a membership row: (organization id, user id). */
  datatype MemberKey = MemberKey(organizationId: int, userId: int)

  datatype IssueError = MembershipNotFound

  /**
   * The cache node: the hash stored under each key, the absolute expiry
   * time of the keys that have one, and the current time in seconds.
   */
  datatype CacheState = CacheState(hashes: map<string, VerificationValue>, expiresAt: map<string, int>, now: int)

  /** A key is live while its hash is stored and its expiry, if any, lies in the future. */
  predicate Live(s: CacheState, key: string)
    ensures Live(s, key) ==> key in s.hashes
    ensures key in s.hashes && key !in s.expiresAt ==> Live(s, key)
    ensures key in s.expiresAt && s.expiresAt[key] <= s.now ==> !Live(s, key)
  {
    key in s.hashes && (key !in s.expiresAt || s.now < s.expiresAt[key])
  }

  /** Every stored hash sits under the key of a well-formed code. */
  predicate StoreInvariant(s: CacheState) {
    forall key :: key in s.hashes ==> IsCodeKey(key)
  }

  /** Time passes; expiry is decided by comparing against the clock. */
  function Advance(s: CacheState, seconds: nat): (s': CacheState)
    ensures s'.hashes == s.hashes && s'.expiresAt == s.expiresAt && s'.now == s.now + seconds
  {
    s.(now := s.now + seconds)
  }

  /**
   * Issuing, as a function of the cache before it: look up the membership,
   * store the record under the code's key, give that key a ten-minute
   * expiry, and return the code.
   */
  function Issue(s: CacheState, userId: int, organizationId: int, email: string, identityId: string,
                 members: map<MemberKey, int>, code: string): (r: (Result<string, IssueError>, CacheState))
    ensures r.0.Failure? <==> MemberKey(organizationId, userId) !in members
    ensures r.0.Failure? ==> r.1 == s
    ensures r.0.Success? ==> r.0.value == code && r.1.now == s.now
    ensures r.0.Success? ==> r.1.hashes.Keys == s.hashes.Keys + {GetRedisKey(code)}
    ensures r.0.Success? ==> Live(r.1, GetRedisKey(code))
  {
    var member := MemberKey(organizationId, userId);
    if member !in members then (Failure(MembershipNotFound), s)
    else
      var key := GetRedisKey(code);
      var value := VerificationValue(userId, email, members[member], identityId);
      (Success(code), CacheState(s.hashes[key := value], s.expiresAt[key := s.now + TtlSeconds], s.now))
  }

  /** Verification, as a function of the cache: true exactly when the code's key is live. */
  function Verify(s: CacheState, code: string): (valid: bool)
    ensures valid ==> GetRedisKey(code) in s.hashes
    ensures GetRedisKey(code) in s.hashes && GetRedisKey(code) !in s.expiresAt ==> valid
    ensures GetRedisKey(code) in s.expiresAt && s.expiresAt[GetRedisKey(code)] <= s.now ==> !valid
  {
    Live(s, GetRedisKey(code))
  }

  /**
   * A successful issue writes exactly one key, the one derived from the
   * returned code, holding the four fields taken from the inputs and the
   * membership row, with an expiry ten minutes after issue; nothing else
   * in the cache changes.
   */
  lemma IssueWritesDerivedKey(s: CacheState, userId: int, organizationId: int, email: string, identityId: string,
                              members: map<MemberKey, int>, code: string)
    requires MemberKey(organizationId, userId) in members
    ensures var (r, s') := Issue(s, userId, organizationId, email, identityId, members, code);
      && r == Success(code)
      && s'.hashes.Keys == s.hashes.Keys + {GetRedisKey(r.value)}
      && s'.hashes[GetRedisKey(r.value)]
           == VerificationValue(userId, email, members[MemberKey(organizationId, userId)], identityId)
      && s'.expiresAt.Keys == s.expiresAt.Keys + {GetRedisKey(code)}
      && s'.expiresAt[GetRedisKey(r.value)] == s.now + TtlSeconds
      && s'.now == s.now
      && (forall key :: key in s.hashes && key != GetRedisKey(code) ==> s'.hashes[key] == s.hashes[key])
      && (forall key :: key in s.expiresAt && key != GetRedisKey(code) ==> key in s'.expiresAt && s'.expiresAt[key] == s.expiresAt[key])
  {
  }

  /** Without a membership row nothing is written. */
  lemma IssueWithoutMembershipWritesNothing(s: CacheState, userId: int, organizationId: int, email: string,
                                           identityId: string, members: map<MemberKey, int>, code: string)
    requires MemberKey(organizationId, userId) !in members
    ensures Issue(s, userId, organizationId, email, identityId, members, code) == (Failure(MembershipNotFound), s)
  {
  }

  /**
   * An issued code verifies for exactly ten minutes: `seconds` after issue
   * it is accepted if and only if fewer than 600 seconds have passed.
   */
  lemma IssuedCodeVerifiesUntilExpiry(s: CacheState, userId: int, organizationId: int, email: string,
                                      identityId: string, members: map<MemberKey, int>, code: string, seconds: nat)
    requires MemberKey(organizationId, userId) in members
    ensures var s' := Issue(s, userId, organizationId, email, identityId, members, code).1;
      Verify(Advance(s', seconds), code) <==> seconds < TtlSeconds
  {
  }

  /** A code whose key was never written does not verify. */
  lemma UnissuedCodeFails(s: CacheState, code: string)
    requires GetRedisKey(code) !in s.hashes
    ensures !Verify(s, code)
  {
  }

  /** A string that is not a well-formed code never verifies while the invariant holds. */
  lemma MalformedCodeFails(s: CacheState, code: string)
    requires StoreInvariant(s) && !IsVerificationCode(code)
    ensures !Verify(s, code)
  {
  }

  /** Issuing a well-formed code keeps the invariant. */
  lemma IssueKeepsInvariant(s: CacheState, userId: int, organizationId: int, email: string, identityId: string,
                            members: map<MemberKey, int>, code: string)
    requires StoreInvariant(s) && IsVerificationCode(code)
    ensures StoreInvariant(Issue(s, userId, organizationId, email, identityId, members, code).1)
  {
    var key := GetRedisKey(code);
    assert key[..|KeyPrefix|] == KeyPrefix && key[|KeyPrefix|..] == code;
  }

  /** Issuing one code does not change whether any other code verifies. */
  lemma IssueLeavesOtherCodes(s: CacheState, userId: int, organizationId: int, email: string, identityId: string,
                              members: map<MemberKey, int>, code: string, other: string)
    requires other != code
    ensures Verify(Issue(s, userId, organizationId, email, identityId, members, code).1, other) == Verify(s, other)
  {
    if GetRedisKey(other) == GetRedisKey(code) {
      GetRedisKeyInjective(other, code);
    }
  }

  /** The cache node that holds the verification keys, with its clock. */
  class OneTimeKeyStore {
    var hashes: map<string, VerificationValue>
    var expiresAt: map<string, int>
    var now: int

    function State(): CacheState
      reads this
    {
      CacheState(hashes, expiresAt, now)
    }

    ghost predicate Valid()
      reads this
    {
      StoreInvariant(State())
    }

    /** An empty node whose clock reads `start`. */
    constructor (start: int)
      ensures Valid() && State() == CacheState(map[], map[], start)
    {
      hashes, expiresAt, now := map[], map[], start;
    }

    /** The clock moves forward by `seconds`. */
    method AdvanceClock(seconds: nat)
      requires Valid()
      modifies this
      ensures Valid() && State() == Advance(old(State()), seconds)
    {
      now := now + seconds;
    }

    /**
     * Stores and returns a verification code for a user whose SSO identity
     * is being migrated. `code` is the random string drawn for it; the
     * email that carries it is not part of this model.
     */
    method SendOneTimeAccountConfirmLink(userId: int, organizationId: int, email: string, identityId: string,
                                         members: map<MemberKey, int>, code: string)
      returns (r: Result<string, IssueError>)
      requires Valid() && IsVerificationCode(code)
      modifies this
      ensures Valid()
      ensures (r, State()) == Issue(old(State()), userId, organizationId, email, identityId, members, code)
      ensures r.Failure? <==> MemberKey(organizationId, userId) !in members
      ensures r.Failure? ==> State() == old(State())
      ensures r.Success? ==> r.value == code && IsVerificationCode(r.value)
    {
      var member := MemberKey(organizationId, userId);
      if member !in members {
        return Failure(MembershipNotFound);
      }
      var memberId := members[member];
      var verificationKey := GetRedisKey(code);
      var verificationValue := VerificationValue(userId, email, memberId, identityId);
      IssueKeepsInvariant(State(), userId, organizationId, email, identityId, members, code);
      hashes := hashes[verificationKey := verificationValue];
      expiresAt := expiresAt[verificationKey := now + TtlSeconds];
      return Success(code);
    }

    /** Reads the hash stored under `key`; an expired or missing key reads as empty. */
    method HashGetAll(key: string) returns (value: Option<VerificationValue>)
      ensures value.Some? <==> Live(State(), key)
      ensures value.Some? ==> key in hashes && value.value == hashes[key]
    {
      if key in hashes && (key !in expiresAt || now < expiresAt[key]) {
        value := Some(hashes[key]);
      } else {
        value := None;
      }
    }

    /** True when a record is stored under the code's key; the record is left in place. */
    method VerifyAccount(code: string) returns (valid: bool)
      ensures valid == Verify(State(), code)
      ensures valid <==> GetRedisKey(code) in hashes && (GetRedisKey(code) in expiresAt ==> now < expiresAt[GetRedisKey(code)])
    {
      var verificationKey := GetRedisKey(code);
      var verificationValue := HashGetAll(verificationKey);
      if verificationValue.None? {
        return false;
      }
      return true;
    }
  }

  /**
   * A verified code stays valid: verifying it a second time still
   * succeeds, because verification leaves the record in place.
   */
  method VerifyIsRepeatable(store: OneTimeKeyStore, code: string) returns (first: bool, second: bool)
    requires store.Valid() && Verify(store.State(), code)
    ensures first && second
  {
    first := store.VerifyAccount(code);
    second := store.VerifyAccount(code);
  }

  /** Issue a code, then verify it twice within its lifetime: both succeed. */
  method IssueThenVerifyTwice(store: OneTimeKeyStore, userId: int, organizationId: int, email: string,
                              identityId: string, members: map<MemberKey, int>, code: string, seconds: nat)
    returns (first: bool, second: bool)
    requires store.Valid() && IsVerificationCode(code)
    requires MemberKey(organizationId, userId) in members && seconds < TtlSeconds
    modifies store
    ensures first && second
  {
    var _ := store.SendOneTimeAccountConfirmLink(userId, organizationId, email, identityId, members, code);
    store.AdvanceClock(seconds);
    IssuedCodeVerifiesUntilExpiry(old(store.State()), userId, organizationId, email, identityId, members, code, seconds);
    first := store.VerifyAccount(code);
    second := store.VerifyAccount(code);
  }
}
