# Sentry identity, one-time key and issue-list rules in Dafny

This project models three pieces of Sentry's server and proves properties
about them.

- **User identity configuration** (`IdentityConfig`, `identity_config.dfy`).
  A user can hold three kinds of login identity:
  - social identities (`UserSocialAuth`);
  - global identities (`Identity`);
  - organization identities (`AuthIdentity`), bound to an org's SSO provider.

  The resolver gives each identity a status saying whether it may be
  disconnected. The endpoint looks an identity up by category and id, and
  deletes it only when its freshly resolved status is `CAN_DISCONNECT`.
  The three tables are the fields of the class `IdentityStore`, and
  `Delete` removes one row from them.
- **IdP-migration one-time keys** (`IdpMigration`, `idp_migration.dfy`).
  On issue, a 32-character code is stored as a hash under
  `auth:one-time-key:<code>`, with a 600-second expiry. Verification checks
  whether that key is still present. The cache node and its clock are the
  fields of the class `OneTimeKeyStore`.
- **Issue-list helpers** (`GroupIndex`, `group_index.dfy`). These are:
  - the stats period;
  - the search keyword arguments built from query parameters, with
    `int()` parsing of `limit` and the stripped default query;
  - the advanced-search gate (nested loops);
  - the sort and status-marking steps of bulk group deletion, on an
    `array` sorted in place and a group table held by the class
    `GroupStore`;
  - the per-project partition of the groups to delete.

`Wrappers` (`wrappers.dfy`) holds the shared `Option` and `Result` types.

Design points:
- Each state-changing method is tied to a pure function of the old state.
  - `IdentityStore.Delete` is tied to `DeleteOutcome`.
  - `OneTimeKeyStore.SendOneTimeAccountConfirmLink` is tied to `Issue`.
  - `OneTimeKeyStore.VerifyAccount` is tied to `Verify`.
  - `DeleteGroupList` and `DeleteGroups` are tied to `MarkedPending`.

  The lemmas are proved about those functions.
- The keys are called one-time, but `verify_account` neither deletes nor
  marks the key. A code therefore verifies every time until its expiry.
  The model follows the code (`IssuedCodeVerifiesUntilExpiry`,
  `VerifyIsRepeatable`).
- Issuing builds the key inline rather than by calling `get_redis_key`.
  The two formats are identical, so the model uses `GetRedisKey` in both
  places, and `GetRedisKeyInjective` shows that a lookup reads exactly the
  key that issue wrote.

## Model

| member | source | states |
|---|---|---|
| IdentityConfig.WrapSocial | src/sentry/api/endpoints/user_identity_config.py:27-31 | one CAN_DISCONNECT entry per social row, in order |
| IdentityConfig.GlobalIdentityStatus | src/sentry/api/endpoints/user_identity_config.py:39-43 | CAN_DISCONNECT exactly when the user has a password or more than one global identity; never NEEDED_FOR_ORG_AUTH |
| IdentityConfig.OrgIdentityStatus | src/sentry/api/endpoints/user_identity_config.py:46-56 | NEEDED_FOR_ORG_AUTH exactly when the provider does not allow unlinking; otherwise CAN_DISCONNECT exactly when the user has a password or at least one global identity |
| IdentityConfig.WrapGlobal | src/sentry/api/endpoints/user_identity_config.py:44 | one entry per global row, all with the given status |
| IdentityConfig.WrapOrg | src/sentry/api/endpoints/user_identity_config.py:58-62 | one entry per org row, each with its own org status |
| IdentityConfig.GetIdentities | src/sentry/api/endpoints/user_identity_config.py:64-68 | one entry per input row: the length is the sum of the three list lengths |
| IdentityConfig.GetIdentitiesOrder | src/sentry/api/endpoints/user_identity_config.py:64-68 | social rows first, then global rows, then org rows, each in input order |
| IdentityConfig.SocialIdentitiesCanDisconnect | src/sentry/api/endpoints/user_identity_config.py:27-31 | every social identity is CAN_DISCONNECT, whatever the password or counts |
| IdentityConfig.GlobalIdentitiesShareStatus | src/sentry/api/endpoints/user_identity_config.py:39-44 | every global identity is CAN_DISCONNECT exactly when the user has a password or more than one global identity, and NEEDED_FOR_GLOBAL_AUTH otherwise |
| IdentityConfig.GlobalEntryStatus | src/sentry/api/endpoints/user_identity_config.py:39-44 | any global entry carries the one shared global status |
| IdentityConfig.OrgIdentityStatusRules | src/sentry/api/endpoints/user_identity_config.py:46-56 | no unlinking allowed gives NEEDED_FOR_ORG_AUTH; otherwise CAN_DISCONNECT exactly when the user has a password or at least one global identity, else NEEDED_FOR_GLOBAL_AUTH |
| IdentityConfig.OrgIdentitiesNeverCountAsFallback | src/sentry/api/endpoints/user_identity_config.py:33-38 | changing the org identities changes no social or global entry, and an org row's status ignores the other org rows |
| IdentityConfig.SecondGlobalIdentityFreesBoth | src/sentry/api/endpoints/user_identity_config.py:39-44 | without a password, one global identity is NEEDED_FOR_GLOBAL_AUTH; with two, both are CAN_DISCONNECT |
| IdentityConfig.OwnedBy | src/sentry/api/endpoints/user_identity_config.py:25 | keeps exactly the table rows owned by the user |
| IdentityConfig.SocialOf | src/sentry/api/endpoints/user_identity_config.py:30 | exactly the user's social rows |
| IdentityConfig.GlobalOf | src/sentry/api/endpoints/user_identity_config.py:25 | exactly the user's global rows |
| IdentityConfig.OrgOf | src/sentry/api/endpoints/user_identity_config.py:61 | exactly the user's org rows |
| IdentityConfig.Resolve | src/sentry/api/endpoints/user_identity_config.py:15-68 | every resolved entry is one of the user's own rows, from the table of its kind |
| IdentityConfig.ResolvedRows | src/sentry/api/endpoints/user_identity_config.py:24-68 | the entries built from the user's filtered tables come from those tables |
| IdentityConfig.OwnedRowIsResolved | src/sentry/api/endpoints/user_identity_config.py:15-68 | every row the user owns appears among the resolved entries |
| IdentityConfig.FindIdentity | src/sentry/api/endpoints/user_identity_config.py:94-97 | None exactly when no entry matches the category and id; otherwise the first matching entry |
| IdentityConfig.FindFirst | src/sentry/api/endpoints/user_identity_config.py:94-97 | the loop returns a matching entry of the sequence, None exactly when none matches, and agrees with FindIdentity |
| IdentityConfig.FindIdentityIn | src/sentry/api/endpoints/user_identity_config.py:94-96 | a found identity is an entry of the sequence and matches the request |
| IdentityConfig.FirstMatchIsFound | src/sentry/api/endpoints/user_identity_config.py:94-96 | the first matching position is the one returned |
| IdentityConfig.IdentityStore.GetIdentity | src/sentry/api/endpoints/user_identity_config.py:87-97 | the first of the user's freshly resolved identities with that category and id, or None when there is none |
| IdentityConfig.WithoutId | src/sentry/api/endpoints/user_identity_config.py:118 | keeps exactly the rows whose id differs |
| IdentityConfig.DeleteFrom | src/sentry/api/endpoints/user_identity_config.py:117-118 | the stored rows afterwards are exactly the old ones minus those of that kind with that id; the other two tables are unchanged |
| IdentityConfig.WithoutIdRemovesOne | src/sentry/api/endpoints/user_identity_config.py:118 | with unique ids, removal by id drops exactly that one row and keeps the rest in order |
| IdentityConfig.WithoutIdAbsent | src/sentry/api/endpoints/user_identity_config.py:118 | removing an id no row has changes nothing |
| IdentityConfig.WithoutIdKeepsDistinct | src/sentry/api/endpoints/user_identity_config.py:118 | removal keeps ids unique |
| IdentityConfig.OwnedByKeepsDistinct | src/sentry/api/endpoints/user_identity_config.py:25 | selecting a user's rows keeps ids unique |
| IdentityConfig.DeleteFromKeepsWellFormed | src/sentry/api/endpoints/user_identity_config.py:117-118 | deletion keeps every table's ids unique |
| IdentityConfig.DeleteOutcome | src/sentry/api/endpoints/user_identity_config.py:106-120 | not-found exactly when the fresh lookup finds nothing; no-content exactly when it finds a CAN_DISCONNECT identity, and then that row is deleted; otherwise the tables are unchanged |
| IdentityConfig.DeleteNotFound | src/sentry/api/endpoints/user_identity_config.py:108-113 | not-found exactly when the user owns no identity of that kind and id, even if another user's row has that id; the tables are then unchanged |
| IdentityConfig.DeleteNotAllowed | src/sentry/api/endpoints/user_identity_config.py:114-115 | not-allowed exactly when the match's status is not CAN_DISCONNECT; the tables are then unchanged |
| IdentityConfig.DeleteRemovesOnlyTarget | src/sentry/api/endpoints/user_identity_config.py:117-120 | on success, exactly the user's row of that kind and id is removed and no other row of any table changes |
| IdentityConfig.DeletedIdentityIsGone | src/sentry/api/endpoints/user_identity_config.py:117-118 | after a successful delete, re-resolving finds no entry with that category and id |
| IdentityConfig.GlobalDeleteNeedsTwo | src/sentry/api/endpoints/user_identity_config.py:39-43 | without a password, a global identity is deletable only while the user holds two or more |
| IdentityConfig.RemovalLeavesAnother | src/sentry/api/endpoints/user_identity_config.py:118 | removing one id from two owned rows with distinct ids leaves one of them |
| IdentityConfig.DeleteKeepsGlobalLogin | src/sentry/api/endpoints/user_identity_config.py:34-36 | a successful global delete leaves a user without a password at least one global identity |
| IdentityConfig.IdentityStore.Delete | src/sentry/api/endpoints/user_identity_config.py:106-120 | one atomic step: the outcome and the new tables are DeleteOutcome of the old tables; the tables are unchanged unless NoContent; unique ids are kept |
| IdpMigration.GetRedisKey | src/sentry/auth/idpmigration.py:73-74 | the key is the namespace prefix followed by the code |
| IdpMigration.GetRedisKeyInjective | src/sentry/auth/idpmigration.py:58 | distinct codes give distinct keys, so verification reads exactly the key issue wrote |
| IdpMigration.Live | src/sentry/auth/idpmigration.py:66 | a live key has a stored hash; a stored key without expiry is live; a key whose expiry time has come is not |
| IdpMigration.Issue | src/sentry/auth/idpmigration.py:55-66 | fails exactly when the membership is missing, and then changes nothing; on success returns the code, adds exactly the code's key, leaves the clock alone and makes the key live |
| IdpMigration.Verify | src/sentry/auth/idpmigration.py:90-95 | a valid code has a stored record; a stored record without expiry verifies; an expired one does not |
| IdpMigration.Advance | src/sentry/auth/idpmigration.py:14 | time moves forward; the stored hashes and expiries are untouched |
| IdpMigration.IssueWritesDerivedKey | src/sentry/auth/idpmigration.py:55-66 | issue writes one key, that of the returned code, holding user_id, email, member_id and identity_id, expiring 600 seconds later; nothing else changes |
| IdpMigration.IssueWithoutMembershipWritesNothing | src/sentry/auth/idpmigration.py:55 | a missing membership fails before anything is written |
| IdpMigration.IssuedCodeVerifiesUntilExpiry | src/sentry/auth/idpmigration.py:13-14 | an issued code verifies exactly when fewer than 600 seconds have passed since issue |
| IdpMigration.UnissuedCodeFails | src/sentry/auth/idpmigration.py:91-93 | a code whose key was never written does not verify |
| IdpMigration.MalformedCodeFails | src/sentry/auth/idpmigration.py:57 | a string that is not a 32-character letters-and-digits code never verifies |
| IdpMigration.IssueKeepsInvariant | src/sentry/auth/idpmigration.py:57-58 | every stored key stays the key of a well-formed code |
| IdpMigration.IssueLeavesOtherCodes | src/sentry/auth/idpmigration.py:65-66 | issuing one code does not change whether any other code verifies |
| IdpMigration.OneTimeKeyStore.SendOneTimeAccountConfirmLink | src/sentry/auth/idpmigration.py:39-70 | the new state is Issue of the old one; fails exactly when the membership is missing, and then changes nothing; on success returns the 32-character code it stored |
| IdpMigration.OneTimeKeyStore.AdvanceClock | src/sentry/auth/idpmigration.py:14 | only the clock moves |
| IdpMigration.OneTimeKeyStore.HashGetAll | src/sentry/auth/idpmigration.py:91 | the stored hash when the key is live, and nothing otherwise |
| IdpMigration.OneTimeKeyStore.VerifyAccount | src/sentry/auth/idpmigration.py:77-95 | true exactly when the code's key is present and unexpired; the store is not modified |
| IdpMigration.VerifyIsRepeatable | src/sentry/auth/idpmigration.py:88-95 | verifying a valid code twice gives true both times |
| IdpMigration.IssueThenVerifyTwice | src/sentry/auth/idpmigration.py:65-66 | a code issued and verified twice within its lifetime succeeds both times |
| GroupIndex.CalculateStatsPeriod | src/sentry/api/helpers/group/index.py:281-295 | no period only for ""; a given period is kept; start and end are passed through only for "auto" |
| GroupIndex.StatsPeriodDefault | src/sentry/api/helpers/group/index.py:282-284 | an absent period becomes "24h" without bounds |
| GroupIndex.StatsPeriodDisabled | src/sentry/api/helpers/group/index.py:285-287 | "" disables stats, with no bounds |
| GroupIndex.StatsPeriodGiven | src/sentry/api/helpers/group/index.py:289-295 | "auto" passes start and end through; any other value is returned unchanged, with both bounds None |
| GroupIndex.SkipSpaces | src/sentry/api/helpers/group/index.py:50 | the leading whitespace run ends at the first non-whitespace character |
| GroupIndex.TrimEnd | src/sentry/api/helpers/group/index.py:50 | the trailing whitespace run starts after the last non-whitespace character |
| GroupIndex.Strip | src/sentry/api/helpers/group/index.py:50 | the stripped text begins and ends with non-whitespace |
| GroupIndex.StripIsTrim | src/sentry/api/helpers/group/index.py:50 | strip removes only whitespace, and only at the two ends |
| GroupIndex.StripUnpadded | src/sentry/api/helpers/group/index.py:50 | text without surrounding whitespace is left unchanged |
| GroupIndex.ParseInt | src/sentry/api/helpers/group/index.py:40 | int() succeeds exactly on an optional sign followed by digits with single underscores between them, after stripping |
| GroupIndex.ParseIntRoundTrip | src/sentry/api/helpers/group/index.py:40 | parsing str(n) gives back n |
| GroupIndex.ParseIntOfNatString | src/sentry/api/helpers/group/index.py:40 | parsing str(m) of a natural m gives back m |
| GroupIndex.ParseIntOfNegativeString | src/sentry/api/helpers/group/index.py:40 | parsing "-" followed by str(m) gives back -m |
| GroupIndex.NatToStringValue | src/sentry/api/helpers/group/index.py:40 | the digits of str(m) have value m |
| GroupIndex.NatToStringGroups | src/sentry/api/helpers/group/index.py:40 | str(m) is accepted by the digit-groups rule and reads back as m |
| GroupIndex.DropUnderscoresOfDigits | src/sentry/api/helpers/group/index.py:40 | digits without underscores are left unchanged |
| GroupIndex.ParseIntRejectsForeignCharacter | src/sentry/api/helpers/group/index.py:39-42 | a character that is not whitespace, a sign, a digit or an underscore makes int() fail |
| GroupIndex.FirstFeatureOf | src/sentry/api/helpers/group/index.py:75-78 | a filter's first feature: negative search before wildcard search, and none exactly when it is neither |
| GroupIndex.AdvancedSearchFeaturesCover | src/sentry/api/helpers/group/index.py:75-78 | the feature list marks a filter as advanced exactly when it is a negation or a wildcard, negation first, named "negative search" and "wildcard search" |
| GroupIndex.AdvancedSearchMessage | src/sentry/api/helpers/group/index.py:101-103 | the refusal is the fixed sentence followed by the feature's name |
| GroupIndex.FirstAdvancedFeature | src/sentry/api/helpers/group/index.py:95-97 | none exactly when no filter is advanced; otherwise the first feature of the first advanced filter |
| GroupIndex.FirstAdvancedAt | src/sentry/api/helpers/group/index.py:95-103 | the first advanced filter determines the reported feature |
| GroupIndex.ValidateSearchFilterPermissions | src/sentry/api/helpers/group/index.py:81-103 | never raises with advanced search; otherwise raises exactly when some filter is a negation or wildcard, naming the first matching condition, filters in order and negation first |
| GroupIndex.SearchQuery | src/sentry/api/helpers/group/index.py:50 | an absent query is "is:unresolved"; a given one is stripped |
| GroupIndex.Message | src/sentry/api/helpers/group/index.py:42 | "invalid limit"; "Error parsing search query: " followed by the parser's detail (line 65); the advanced-search refusal followed by the feature's name |
| GroupIndex.MessageInjective | src/sentry/api/helpers/group/index.py:42 | different errors never carry the same message |
| GroupIndex.BuildQueryParams | src/sentry/api/helpers/group/index.py:34-70 | "invalid limit" exactly when a non-empty limit is not an integer; the given or default sort; the parsed limit only when given. Once the limit is accepted: an empty query gives no filters; a parser failure gives that parse error; otherwise the parsed filters, unless advanced search is missing and some filter is advanced, which gives the refusal naming FirstAdvancedFeature |
| GroupIndex.LimitRoundTrip | src/sentry/api/helpers/group/index.py:37-40 | a limit written as str(n) is passed on as n |
| GroupIndex.AdvancedQueryRejected | src/sentry/api/helpers/group/index.py:38-67 | with an accepted limit (absent, empty or an integer) and no advanced search, a query with an advanced filter is refused, naming the first advanced filter's feature |
| GroupIndex.Ids | src/sentry/api/helpers/group/index.py:121 | the ids of the groups, position by position |
| GroupIndex.MarkedPending | src/sentry/api/helpers/group/index.py:123-125 | same groups; each listed group not in a deletion state becomes PENDING_DELETION, the rest are unchanged |
| GroupIndex.MarkedPendingStatuses | src/sentry/api/helpers/group/index.py:123-125 | listed groups end in a deletion state; groups already in one and unlisted groups keep everything; no group changes id, project or times seen |
| GroupIndex.MarkedPendingTwice | src/sentry/api/helpers/group/index.py:207-210 | marking with one list and then another is marking once with both |
| GroupIndex.MarkedPendingNone | src/sentry/api/helpers/group/index.py:200-201 | marking no groups changes nothing |
| GroupIndex.SortGroups | src/sentry/api/helpers/group/index.py:120 | the array ends ascending by (times seen, id) and is a permutation of its input |
| GroupIndex.GroupStore.MarkPendingDeletion | src/sentry/api/helpers/group/index.py:123-125 | the table becomes MarkedPending of the listed ids |
| GroupIndex.DeleteGroupList | src/sentry/api/helpers/group/index.py:114-125 | nothing changes for a missing or empty list; otherwise the list is sorted, a permutation of its input, and its groups are marked |
| GroupIndex.GroupsOfProject | src/sentry/api/helpers/group/index.py:203-205 | a project's bucket holds exactly the input groups of that project |
| GroupIndex.GroupsOfProjectStep | src/sentry/api/helpers/group/index.py:204-205 | the next group extends only its own project's bucket |
| GroupIndex.GroupsOfProjectAppend | src/sentry/api/helpers/group/index.py:203-205 | buckets keep the input order: the bucket of a concatenation is the concatenation of the buckets |
| GroupIndex.AppendKeepsBuckets | src/sentry/api/helpers/group/index.py:204-205 | one append step keeps the map equal to the prefix's buckets |
| GroupIndex.PartitionByProject | src/sentry/api/helpers/group/index.py:203-205 | the map's keys are the projects with groups, and each value is that project's groups in input order |
| GroupIndex.PartitionIsExact | src/sentry/api/helpers/group/index.py:203-205 | every group is in its own project's bucket and in no other |
| GroupIndex.SortedCopyIds | src/sentry/api/helpers/group/index.py:120-121 | the ids of a sorted copy are those of the bucket it was sorted from |
| GroupIndex.ListedIdsStep | src/sentry/api/helpers/group/index.py:207-210 | one more project adds the ids of its bucket |
| GroupIndex.DeleteGroups | src/sentry/api/helpers/group/index.py:198-212 | exactly the groups of the listed projects are marked; groups of other projects are left alone |

## Left out

- Database access is not modelled: the ORM query sets, `GroupHash`, `GroupInbox` and `Release`. The tables are in-memory sequences and maps, and `X.objects.filter(user=user)` is `OwnedBy`.
- `transaction.atomic` is not modelled. `IdentityStore.Delete` is one method call, so the check and the removal form one step; concurrent requests are not modelled.
- HTTP responses and serialization are not modelled. The delete outcome is the `Response` datatype, and the GET endpoints are left out because they only serialize.
- The `int(identity_id)` conversion is not modelled. Ids are integers in the model, and the URL's category string is not parsed but is the `Category` datatype.
- The Redis cluster client choice is not modelled. The one cache node is a map of hashes plus an expiry map and a clock; `RedisKey` records the routing key.
- Live: a key counts as expired at exactly its expiry time, so a code verifies only while `now < issue + 600`. Redis expires a key only once its clock has passed the expiry time, so the two differ at that one boundary instant.
- `get_random_string` is a parameter `code`, required to satisfy `IsVerificationCode`. Randomness and code collisions are not modelled.
- `send_confirm_email` is not modelled: the email, the URL building and the message builder are external.
- The search parser (`parse_search_query` and `convert_query_values`) is the function parameter `parse` of `BuildQueryParams`.
- The search parameters are not modelled: `projects` and `environments` pass-through, the `cursor` parameter (`Cursor.from_string` is not part of this model), and the tracing tags.
- `DEFAULT_SORT_OPTION` is not part of this model, so it is the parameter `defaultSort`.
- `GroupStatus` is not part of this model. Only its two deletion states are named; every other status is `OtherStatus(code)`.
- In `delete_group_list` the following are not modelled: the eventstream, the group-hash deletion, the deletion task, audit entries, signals and logging. The method returns the ids it would hand on.
- In `delete_groups` the row fetch is not modelled: both the `id` filter over the database and `search_fn`, with its ValidationError response. The fetched list is an input, and the 204 response is not modelled.
- The advanced-search feature flag is the boolean `hasAdvancedSearch`. The `advanced_search_feature_gated` signal is not modelled.
- SortGroups: proves sorted and permutation but does not state stability for groups with equal `(times_seen, id)` keys, because Python's stable sort only matters there for duplicate rows.
- ParseInt: models `int()` and `str.strip()` on ASCII text only. Non-ASCII digits and Unicode whitespace are not modelled.
- These are not modelled: `track_slo_response`, `rate_limit_endpoint`, `build_rate_limit_key`, `get_by_short_id`, `prep_search`, `get_first_last_release`, `get_release_info` and `get_first_last_release_info`. They wrap metrics, the rate limiter, the ORM or the search backend.
- `src/sentry/tasks/integrations/sync_status_inbound.py` is not part of this model: it is a retrying background task around an external integration API.
