# Qeet ID: models and proofs

Qeet ID is an identity server: sign-in sessions, an OIDC provider, SCIM provisioning, a hash-chained
audit log, a live activity stream, and a tool that splits its OpenAPI document. This project models the
parts of it whose behaviour spans several calls, several transactions or a whole document, and proves
what they keep. `dafny verify dfyconfig.toml` checks everything.

Each component has a specification (functions over values), methods or classes in the form of the
source proved to do what the specification says, and lemmas about the specification.

**OpenAPI splitter** (`YamlTree`, `YamlText`, `YamlGraph`, `OpenApiRefs`, `OpenApiSplit`, `OpenApiVerify`,
`OpenApiMerge`, `OpenApiRoundTrip`). Aliases are expanded in place on a heap of nodes, and what that makes of
a text is specified beside what the text means; the references are closed to a fixpoint; a document is
divided into five files; merging them undoes the division.

**Audit log** (`Json`, `JsonOrder`, `AuditChain`, `AuditProtocol`, `AuditRuns`, `AuditLog`). The text that is
hashed is the one `encoding/json` prints, proved to be uniquely readable, so nothing is assumed about
encodings. Nothing is assumed about the hash function either: where a claim needs it, the lemma returns
either the claim or two of the rows' contents with one hash, or one that hashes to the seed. `AuditRuns` interleaves the
statements of any number of transactions.

**Refresh tokens of sign-in sessions** (`AuthRefresh`, `AuthRuns`, `AuthRevocation`, `AuthStore`). A refresh
is three steps: the joined read of token, session and user on one snapshot; the row lock, which shows the
token's row, and only that row, as it then is; the writes and the commit.

**OIDC grants** (`OidcGrants`, `OidcRuns`, `OidcMeans`, `OidcStore`, `TokenExchange`) and **polled grants** (`PollGrant`,
`PollRuns`, `DeviceGrant`, `CibaGrant`). The device grant (RFC 8628) and CIBA share one machine, proved once
and refined twice.

**SCIM group PATCH** (`ScimPatch`, `ScimOrder`), **keyset paging** (`Paging`), **activity fan-out** (`HubBuffer`,
`Hub`), **sign-in lockout** (`Lockout`), **SAML signature position** (`SamlSignature`).

## Where the code does not do what is said of it

The models follow the code and its SQL.

- The audit package says that deleting rows breaks the chain (`internal/operations/audit/audit.go:4-5`). Rows removed from
  the end leave a chain that verifies (`AuditChain.PrefixVerifies`); `AuditChain.RearrangementCaught` shows that
  nothing else does.
- Record takes `created_at` from the clock of its host, and both the tip and the verifier's list are ordered by
  it (`internal/operations/audit/queries.sql:17`, `:51`); the `inet` column rewrites some addresses; and the verifier reads numbers
  in the metadata as float64 (`internal/operations/audit/verifier.go:135-141`), so an integer beyond 2^53 may come back changed. A chain
  verifies exactly when its rows were inserted in that order and their addresses and numbers come back as they
  were sent (`AuditRuns.VerifiesIffOrdered`); `AuditLog.SlowClockBreaksTheChain`, `AuditLog.ShortenedAddressBreaksTheChain` and
  `AuditLog.LargeNumberBreaksTheChain` are runs that fail.
- A refresh reads session and user without a lock. At any time after a revocation some continuation still refreshes
  the session if and only if a call is under way that read the session unrevoked and the user unblocked and presents
  the session's unused token, which has not expired (`AuthRevocation.OutlivesRevocationIff`); it succeeds at most once
  (`AuthRevocation.OneLateSuccess`). `AuthRevocation.RefreshOutlivesLogout` is a run after which it can, until the token
  expires. Replaying a used token after its expiry revokes nothing, because expiry is looked at first.
- Introspection and revocation do not look for a refresh token when the hint is "access_token", although section 2.1
  of RFC 7009 and section 2.1 of RFC 7662 have the hint only speed up a search. `OidcGrants.ActiveIffRefreshable` says exactly
  which tokens can be refreshed while they are reported inactive: live ones, with that hint until they expire, and
  with any other at the very instant of expiry. `OidcRuns.RevokedUnlessHinted` does so for revocation.
- A poll is measured from the start of the transaction of the poll before it. Polls that waited for the row for an
  interval all pass, however many (`PollGrant.WaitingPollsPass`); the number of polls that pass is bounded if and only if
  polls wait for less than that (`PollGrant.BoundedIff`).
- Section 3.5.2 of RFC 7644 has the operations of a SCIM patch applied in sequence, and the group restored if one fails.
  The source compiles them to one batch in one transaction. On every group that is the same if and only if no operation
  is refused and the changes are order free, or one is refused and so is the update with the last name and the last
  external id (`ScimOrder.AlwaysAtomicIff`). So it differs when a user is removed and added again
  (`ScimOrder.RemoveThenAddDiffers`), is added before the members are replaced (`ScimOrder.AddThenReplaceDiffers`), or when a
  refused external id is replaced by a later operation (`ScimOrder.ReplacedRefusalStands`). `ScimOrder.PatchIsOneByOneIff` and
  `ScimOrder.AlwaysOneByOneIff` compare it with sending each operation as a request of its own.
- `expandAliases` meets an alias inside its own anchor, which the YAML parser accepts, by leaving a nil child or by
  dereferencing one; in exactly these documents (`YamlText.ExpandsCleanlyIff`). `&a [*a]` leaves one
  (`YamlText.OneAliasInItself`), `&a [*a, *a]` panics (`YamlText.TwoAliasesPanic`).
- The audit list leaves out one row in each limit + 1 (`Paging.AuditListed`).

## Model

| member | source | states |
|---|---|---|
| YamlTree.CountAliasesZero | tools/openapi-split/main.go:387-399 | the alias counter is zero exactly on documents without alias nodes |
| YamlGraph.CloneNode | tools/openapi-split/main.go:474-488 | a clone is on new nodes only and has the shape, kinds, tags and values of what is below the node, nil children as nil and alias nodes as aliases; no node of it has an anchor or an alias target |
| YamlGraph.ExpandAliases | tools/openapi-split/main.go:490-505 | on every graph a parser can build it ends, in place, with exactly what the specification makes of the text: each alias an expanded copy of what its target is by then, or no result exactly where a nil child is dereferenced |
| YamlGraph.ClearAnchors | tools/openapi-split/main.go:507-515 | no node below the root keeps an anchor and what is below it keeps its shape, nil children included |
| YamlGraph.ExpandDocument | tools/openapi-split/main.go:92-93 | both passes over a parsed document: they end without a panic, a nil child or an alias if and only if no alias lies inside its own anchor, and then the root has the meaning of the text and no node an anchor |
| YamlText.OrderedExpands | tools/openapi-split/main.go:490-505 | where every alias names a node completed before it, expansion gives the meaning of the text, each alias read as its target |
| YamlText.UnorderedBreaks | tools/openapi-split/main.go:478-500 | where some alias lies inside its own anchor, at any depth, expansion leaves a nil child or panics |
| YamlText.ExpandsCleanlyIff | tools/openapi-split/main.go:474-505 | the two together, for every document: clean if and only if no alias lies inside its own anchor |
| YamlText.OneAliasInItself | tools/openapi-split/main.go:497-500 | a sequence holding one alias of itself ends with a nil child |
| YamlText.TwoAliasesPanic | tools/openapi-split/main.go:494-500 | with two such aliases it panics |
| YamlGraph.SetMapScalar | tools/openapi-split/main.go:456-465 | the first entry with the key, and no other, is overwritten, or an entry is appended |
| OpenApiRefs.MapGetLoop | tools/openapi-split/main.go:443-454 | of a mapping the value of the first complete entry with the key, found by its place; nothing if there is none or the node is no mapping |
| OpenApiRefs.CollectRefs | tools/openapi-split/main.go:517-543 | adds a component exactly if some mapping below the node, going through the values of mappings and the children of other nodes, has a complete entry with key $ref and the scalar #/components/section/name, cut at the first slash |
| OpenApiRefs.RefsOfIs | tools/openapi-split/main.go:519-542 | the set all other claims about references use holds exactly those |
| OpenApiRefs.ResolveClosure | tools/openapi-split/main.go:545-579 | the loop ends with exactly the components reachable from the start along references, in whatever order maps are visited |
| OpenApiRefs.ClosureIsClosed | tools/openapi-split/main.go:545-579 | the reachable set holds the start and is closed under references |
| OpenApiRefs.ClosureIsLeast | tools/openapi-split/main.go:545-579 | no smaller set holds the start and is closed |
| OpenApiSplit.ClassifyPath | tools/openapi-split/main.go:178-217 | a path goes to a file exactly when it has an operation under one of the five methods, and each has tags that the table all maps to that file; otherwise the problem, exactly: the first operation that has no tags, or has an unmapped one and which is the first; else no operations, or several files |
| OpenApiSplit.BelongsIs | tools/openapi-split/main.go:178-217 | belonging to a file, as the other claims use it, is exactly that |
| OpenApiSplit.DestinationIs | tools/openapi-split/main.go:178-217 | the destination of a path is the one file it belongs to |
| OpenApiSplit.BuildComponentsLoop | tools/openapi-split/main.go:581-605 | keeps the components of the closure and every security scheme, in source order, and no empty section |
| OpenApiSplit.FilterTagsLoop | tools/openapi-split/main.go:607-623 | keeps the used tags in order, nothing when none is used |
| OpenApiSplit.ReadWrite | tools/openapi-split/main.go:95-100 | the sections of a written document read back as they were written, optional ones included |
| OpenApiSplit.DoSplit | tools/openapi-split/main.go:86-176 | fails exactly when paths or components are missing or some path does not classify; otherwise writes the five files the specification describes |
| OpenApiSplit.SetScalarIs | tools/openapi-split/main.go:456-465 | setting a scalar gives the key that value and leaves what is found under every other key |
| OpenApiVerify.DoVerify | tools/openapi-split/main.go:333-378 | reports exactly the dangling references, and no problem exactly when the file is self-contained |
| OpenApiVerify.LookupBuilt | tools/openapi-split/main.go:583-605 | an output file resolves a reference as the source does if it keeps it, and not at all otherwise |
| OpenApiVerify.FileRefs | tools/openapi-split/main.go:135-164 | the references of a written file are the closure of its paths and those of its schemes, info, servers and tags |
| OpenApiVerify.SplitPassesVerify | tools/openapi-split/main.go:335-378 | a written file passes verify if and only if all its paths reach exists and every other reference it carries is kept and exists |
| OpenApiVerify.SoundSourceSplitsSoundly | tools/openapi-split/main.go:335-378 | a source without dangling references, none of them outside paths and components, splits into files that all pass |
| OpenApiMerge.DoMerge | tools/openapi-split/main.go:221-329 | fails exactly on no files or a path that occurs twice; otherwise gives the merged document of the specification |
| OpenApiMerge.DuplicateStays | tools/openapi-split/main.go:255-264 | a path met twice in the first files is met twice in all of them, so stopping early is sound |
| OpenApiRoundTrip.MergeKeepsPaths | tools/openapi-split/main.go:255-264 | merging the five outputs meets a duplicate path exactly if the source repeats one, and has the paths of the source, each as often and with its content |
| OpenApiRoundTrip.FileHolds | tools/openapi-split/main.go:135-164 | a written file has exactly the paths of the source that lead to it, and its own title |
| OpenApiRoundTrip.KeptIsNeeded | tools/openapi-split/main.go:581-605 | some file keeps a component exactly when it is a security scheme or some path of the source reaches it |
| OpenApiRoundTrip.TagsInFiles | tools/openapi-split/main.go:265-273 | the merged tags are the named ones that some path uses, each as in the source |
| OpenApiRoundTrip.MergeUndoesSplit | tools/openapi-split/main.go:232-321 | merge after split: a duplicate exactly if the source repeats a path; otherwise the same paths, file by file in the order of the files' names; every needed component of the six sections once and unchanged and no other; the used tags once each; openapi, servers and info but for the title |
| OpenApiRoundTrip.SplitThenMerge | tools/openapi-split/main.go:62-82 | the two modes run one after the other report a duplicate exactly if the source repeats a path, and otherwise give that document |
| Json.QuoteEnds | internal/operations/audit/audit.go:93-109 | a quoted string ends at its closing quote, whatever characters it holds |
| Json.PrintEnds | internal/operations/audit/audit.go:93-109 | no printed value is a proper beginning of another |
| Json.PrintInjective | internal/operations/audit/audit.go:93-109 | different values print differently |
| JsonOrder.CanonOfPermuted | internal/operations/audit/verifier.go:127-142 | values that differ in the order of object keys, at any depth, have one canonical form |
| JsonOrder.CanonIsSorted | internal/operations/audit/audit.go:73-76 | the canonical form is the same value with the keys of every object sorted |
| AuditChain.TextInjective | internal/operations/audit/audit.go:77-109 | no two contents of rows have the same hashed text |
| AuditChain.NormaliseRecovers | internal/operations/audit/verifier.go:127-142 | however the store orders keys, the verifier gets back the metadata Record hashed with its numbers printed anew, so the same bytes if and only if every number is printed as before; a nil map is an empty object on both sides |
| AuditChain.Verify | internal/operations/audit/verifier.go:40-115 | OK exactly when every row is valid, with the count and the last id; an error exactly when the metadata of the row it gets to cannot be read; otherwise the first row that is not valid, the reason, the rows before it |
| AuditChain.TamperEvident | internal/operations/audit/audit.go:1-5 | two lists that verify and end in one hash agree on all that is hashed, or the lemma returns a collision or a preimage of the seed made of their rows |
| AuditChain.RearrangementCaught | internal/operations/audit/audit.go:4-5 | rows of a verified list deleted, reordered or repeated verify only as a prefix of it, or a collision or preimage is returned |
| AuditChain.PrefixVerifies | internal/operations/audit/verifier.go:46-114 | rows removed from the end leave a list that verifies |
| AuditProtocol.NewestIs | internal/operations/audit/queries.sql:10-18 | the row the tip query picks is later than every other of its chain |
| AuditProtocol.ListingIs | internal/operations/audit/queries.sql:35-51 | the verifier's list has exactly the rows of the chain, ordered by created_at and id |
| AuditProtocol.OrderedChainVerifies | internal/operations/audit/verifier.go:40-115 | a chain inserted in the order of (created_at, id), its addresses and metadata numbers unchanged on the way back, verifies |
| AuditProtocol.VerifiedChainIsOrdered | internal/operations/audit/verifier.go:40-115 | the converse, or a collision or preimage made of the rows |
| AuditRuns.RecordedIsHashed | internal/operations/audit/audit.go:139-200 | Record hashes the event with its address as sent, and what it stores is read back as what it hashed, but for the address and the numbers of the metadata |
| AuditRuns.EveryRowTells | internal/operations/audit/audit.go:139-200 | in every run each committed row, and the text hashed for it, is field by field that of an event some call of Record was given |
| AuditRuns.RunKeeps | internal/operations/audit/audit.go:151-200 | every step of every interleaving keeps: rows not yet committed are of chains whose lock is held, a tip that was read is current, what any transaction sees is a chain |
| AuditRuns.CommittedChain | internal/operations/audit/audit.go:136-138 | in every interleaving of transactions that call Record any number of times for any tenants, each tenant's committed rows form one chain in insertion order |
| AuditRuns.VerifiesIffOrdered | internal/operations/audit/verifier.go:34-40 | after every run a tenant's rows verify, all of them counted, exactly when inserted in key order with addresses and metadata numbers kept; the only-if part returns a collision or preimage otherwise |
| AuditLog.Database.LockChain | internal/operations/audit/audit.go:151-162 | the advisory lock is taken, or held elsewhere and nothing changes |
| AuditLog.Database.FetchTip | internal/operations/audit/audit.go:166-175 | the hash of the newest row the transaction sees, or the seed |
| AuditLog.Database.HashAndInsert | internal/operations/audit/audit.go:177-200 | the row of a run inserted, or the address refused and nothing inserted |
| AuditLog.Database.Record | internal/operations/audit/audit.go:139-201 | an uninterrupted call is exactly the three steps of a run; when recorded, the transaction has one more row, which has the tenant, actor, action, resource, agent, request id, address and metadata of the event, a user's when it names no actor type, and the hash of the text of exactly these |
| AuditLog.Database.VerifyTenant | internal/operations/audit/verifier.go:40-115 | after any run an ordered chain of a tenant gets OK with RowsChecked equal to its number of rows |
| AuditLog.SlowClockBreaksTheChain | internal/operations/audit/audit.go:178 | a run of two transactions, the second on a slow clock, that Verify rejects though no hash collides |
| AuditLog.ShortenedAddressBreaksTheChain | internal/operations/audit/queries.sql:31 | a run of one event whose address the column rewrites, that Verify rejects |
| AuditLog.LargeNumberBreaksTheChain | internal/operations/audit/verifier.go:135-141 | a run of one event with an integer that no float64 holds, that Verify rejects |
| AuthRefresh.RotatedChain | internal/access/authentication/service.go:853-871 | a rotation of a session's unused token extends its chain by one linked, unused token |
| AuthRuns.StepKeeps | internal/access/authentication/service.go:775-891 | every step keeps: one chain per session, a locked row as read, one holder per row, successes recorded as the chain but its last |
| AuthRuns.OneChainPerSession | internal/access/authentication/service.go:770-774 | in every interleaving a session's tokens are one chain linked by replaced_by with one unused token at its end, and number one more than its successful refreshes |
| AuthRuns.NoTokenTwice | internal/access/authentication/service.go:770-774 | no token is refreshed successfully twice (section 10.4 of RFC 6749) |
| AuthRevocation.RevokedIff | internal/access/authentication/service.go:939-983 | a step revokes a session exactly if it is its logout, a confirmed reset or a purge of its user, or the replay of a used unexpired token; none takes it back |
| AuthRevocation.ExpiredReplayRevokesNothing | internal/access/authentication/service.go:821-829 | a used token replayed after expiry changes nothing |
| AuthRevocation.RevocationIsPermanent | internal/access/authentication/service.go:810-812 | after a revocation no refresh that begins later succeeds for any token of the session; one already under way only if it read the session unrevoked and the user unblocked, and only for the token then unused |
| AuthRevocation.OneLateSuccess | internal/access/authentication/service.go:795-803 | at most one refresh of a session succeeds after its revocation |
| AuthRevocation.OutlivesRevocationIff | internal/access/authentication/service.go:795-823 | at any time t after a revocation some continuation, its clocks read from t on, refreshes the session successfully if and only if a call is under way that read the session unrevoked and the user unblocked and presents the session's unused token, which has not expired at t |
| AuthRevocation.RefreshOutlivesLogout | internal/access/authentication/service.go:795-823 | a run in which a logout comes between the read and the lock: the refresh can still succeed exactly as long as the token has not expired |
| AuthRevocation.SuccessReadClean | internal/access/authentication/service.go:795-820 | in every run a refresh that succeeded is that of a call which found, when it read, the session unrevoked and its user neither deleted nor suspended |
| AuthStore.Tables.Signup | internal/access/authentication/service.go:274-330 | user, session and first token inserted together: neither suspended nor deleted, unrevoked, unused |
| AuthStore.Tables.IssuePair | internal/access/authentication/service.go:698-768 | session and first token inserted together, unrevoked and unused, with the expiry given |
| AuthStore.Tables.ReadJoined | internal/access/authentication/service.go:795-820 | of the token's row: whether its session is revoked, and whether the session's user is deleted or suspended; or an unknown token |
| AuthStore.Tables.Acquire | internal/access/authentication/service.go:802 | the row as it is when no other call holds it |
| AuthStore.Tables.Complete | internal/access/authentication/service.go:810-882 | the checks in their order and the writes of each outcome, nothing else changed |
| AuthStore.Tables.Refresh | internal/access/authentication/service.go:775-891 | a success exactly if the token is known, no other call holds its row, its session is unrevoked, the user neither deleted nor suspended, and it is unused and not expired; each error likewise; a success marks the row used and replaced by a new unused one of its session, and only a success is logged |
| AuthStore.Tables.Logout | internal/access/authentication/service.go:967-983 | revokes the session and no other, idempotent, nothing for an unknown one |
| AuthStore.Tables.ConfirmPasswordReset | internal/access/recovery/recovery.go:107-160 | succeeds exactly for a known unused reset in time; uses it up and revokes every session of the user and no other |
| AuthStore.Tables.PurgeUser | internal/operations/gdpr/gdpr.go:151-178 | the account is deleted and every session of the user, and no other, revoked |
| OidcGrants.ActiveIffRefreshable | internal/federation/oidc/oidc.go:1364-1390 | what introspection calls active its owner can refresh; a token not called active can be refreshed if and only if it is live and it is the instant of expiry, or the hint is access_token and the token not past expiry |
| OidcGrants.RotatedKeeps | internal/federation/oidc/oidc.go:578-606 | a rotation keeps family, links and bound resource |
| OidcRuns.StepKeeps | internal/federation/oidc/oidc.go:420-655 | every call keeps the invariant of all families |
| OidcRuns.FamiliesHold | internal/federation/oidc/oidc.go:506-631 | a token keeps its family's client, user, tenant and scopes; all but the last of a family are used and replaced by the next; each is bound to the last non-empty resource supplied so far (section 2.2 of RFC 8707) |
| OidcRuns.OneLiveToken | internal/federation/oidc/oidc.go:529-534 | a family never has two live tokens |
| OidcRuns.RedeemedOnce | internal/federation/oidc/oidc.go:565-573 | a redeemed token is refused ever after, to whomever |
| OidcRuns.DeadForGood | internal/federation/oidc/oidc.go:562-573 | a token once used or revoked is never redeemed again |
| OidcRuns.ReplayEndsAll | internal/federation/oidc/oidc.go:565-574 | replaying a used, unrevoked token, expired or not, ends every token of that client and user there then is |
| OidcRuns.RevokeGrantEndsFamily | internal/federation/oidc/oidc.go:1424-1442 | revoking a grant as its tenant ends its whole family |
| OidcRuns.RevokedUnlessHinted | internal/federation/oidc/oidc.go:1295-1307 | a revocation by the owner always succeeds, and ends a live token for every later run exactly when the hint is not access_token |
| OidcRuns.RefreshStaysInFamily | internal/federation/oidc/oidc.go:582-629 | the new token is of the presented one's family and grant, and response and row carry the resource last supplied |
| OidcRuns.CodeExchangedOnce | internal/federation/oidc/oidc.go:447-470 | an authorization code once exchanged is refused ever after |
| OidcMeans.StrangerChangesNothing | internal/federation/oidc/oidc.go:557-561 | a client that presents another client's token, used or not, is refused and changes nothing |
| OidcMeans.SuccessorsAreOwned | internal/federation/oidc/oidc.go:557-561 | in every run a token that succeeds another of its family was obtained by the family's client, which was registered then and authenticated |
| OidcStore.Tables.Authorize | internal/federation/oidc/oidc.go:189-224 | a code exactly if the client is registered, the redirect and every scope are its own, with the client's tenant and ten minutes to live; otherwise the refusal, exactly, and nothing changed |
| OidcStore.Tables.ExchangeCode | internal/federation/oidc/oidc.go:421-504 | tokens exactly if the client authenticates and the code is its own, unused, in time, asked for with this redirect, and, if it has a challenge, the verifier hashes to it by S256; then the code is spent and a family started if the client may refresh; otherwise the refusal, exactly, and nothing changed |
| OidcStore.Tables.IssueRefreshToken | internal/federation/oidc/oidc.go:506-527 | a live row with the grant and expiry given, that starts a family, its resource bound if not empty |
| OidcStore.Tables.RefreshToken | internal/federation/oidc/oidc.go:535-631 | tokens exactly if the client authenticates and some row has the token, is the client's, neither revoked nor used, and not expired; each refusal likewise; the rotation, the end of every token of the client and user on reuse, or nothing changed |
| OidcStore.Tables.RevokeToken | internal/federation/oidc/oidc.go:1295-1311 | revokes exactly the token, if it is the client's and the hint is not access_token, touches no other, and succeeds for every client that authenticates (RFC 7009) |
| OidcStore.Tables.RevokeGrant | internal/federation/oidc/oidc.go:1427-1442 | revokes exactly the tokens of the same client, user and tenant, or finds nothing and changes nothing |
| OidcStore.Tables.Introspect | internal/federation/oidc/oidc.go:1364-1390 | active exactly when the client authenticates, the hint is not access_token and some row of the token is not revoked, not used and before expiry |
| TokenExchange.FieldsOfJoin | internal/federation/oidc/oidc.go:344-367 | splitting a joined scope string gives back the scopes, if none is empty or holds a space |
| TokenExchange.FieldsOfSpace | internal/federation/oidc/oidc.go:399-402 | a scope string has no fields exactly when it is blank |
| TokenExchange.Downscope | internal/federation/oidc/oidc.go:394-409 | refused exactly when a requested scope is not held; else the requested scopes, or all when none is requested |
| TokenExchange.Exchange | internal/federation/oidc/oidc.go:318-392 | a token exactly if the client authenticates and may use the grant, the types are those of access tokens, the subject token is valid and names a user, it holds every requested scope, and an actor token, if any, is valid; each refusal likewise; else claims with the subject's user, tenant and session and at most its scopes |
| TokenExchange.DerivedScopes | internal/federation/oidc/oidc.go:343-367 | the issued scope string reads back as exactly the granted scopes |
| TokenExchange.NoEscalation | internal/federation/oidc/oidc.go:311-317 | along any chain of exchanges user and tenant stay and scopes never grow (RFC 8693) |
| PollRuns.TokensOnce | internal/federation/oidc/device.go:332-335 | a code yields tokens once |
| PollRuns.EndedForGood | internal/federation/oidc/device.go:431-434 | after a denial in time or a revocation no poll gets tokens |
| PollRuns.ApprovedBefore | internal/federation/oidc/device.go:264-344 | tokens are for the user of an approval that found the code pending and not expired |
| PollGrant.PassesIffAfterInterval | internal/federation/oidc/device.go:280-297 | of two polls that reach the throttle with none between, the second passes if and only if the interval separates it from the start of the first, slow_down or not |
| PollGrant.PassRate | internal/federation/oidc/device.go:280-305 | n polls that pass before expiry take (n - 1) times the interval less the lag between a poll's start and its reading the clock; a bound where the lag is below the interval |
| PollGrant.AtMost121 | internal/federation/oidc/device.go:29-34 | at most 121 polls pass with interval five and lifetime six hundred seconds |
| PollGrant.SteadyPollsPass | internal/federation/oidc/ciba.go:26-32 | a client that polls every five seconds gets all 121 |
| PollGrant.WaitingPollsPass | internal/federation/oidc/queries.sql:209-210 | any number of polls that started together and waited for the row an interval long all pass |
| PollGrant.BoundedIff | internal/federation/oidc/device.go:280-297 | the number of polls that pass is bounded if and only if polls lag by less than the interval |
| DeviceGrant.ChooseScopes | internal/federation/oidc/device.go:113-123 | the requested or all registered scopes; refused exactly when one is not registered |
| DeviceGrant.DeviceCode.Decide | internal/federation/oidc/device.go:189-245 | refused exactly when expired, decided, or approved by one not of the tenant; else authorized for the decider, or denied; the row moves as the call of a run |
| DeviceGrant.DeviceCode.Token | internal/federation/oidc/device.go:252-344 | each answer exactly on the fields of the row: tokens for its user if the client is its own, it is not consumed, the poll not early, the code not expired and authorized; what the poll leaves; the row moves as the call of a run |
| DeviceGrant.DeviceCode.Revoke | internal/federation/oidc/device.go:431-445 | denied whatever the status, for the tenant only, as the call of a run |
| DeviceGrant.DeviceSafety | internal/federation/oidc/device.go:186-344 | a device gets tokens once, as the code's client and before it expires, only for a tenant member who approved while pending and in time, never after a revocation |
| CibaGrant.BackchannelAuthorize | internal/federation/oidc/ciba.go:57-95 | every refusal exactly; else the user of the hint and registered scopes |
| CibaGrant.Request.Decide | internal/federation/oidc/ciba.go:165-200 | refused exactly when another's, expired or decided; else authorized or denied as he says; the row moves as the call of a run |
| CibaGrant.Request.Token | internal/federation/oidc/ciba.go:205-279 | each answer exactly on the fields of the row: tokens for its user if the client is its own, it is not consumed, the poll not early, the code not expired and authorized; what the poll leaves; the row moves as the call of a run |
| CibaGrant.CibaSafety | internal/federation/oidc/ciba.go:159-280 | a client gets tokens once, before the request expires, only for the hinted user, who approved while pending and in time |
| ScimPatch.DecodeMemberRefs | internal/federation/scim/groups.go:634-656 | exactly the well-formed references of a list or of a single object, in order |
| ScimPatch.CompileOne | internal/federation/scim/groups.go:553-629 | what one operation adds to the patch, path by path and verb by verb: members replaced, added, removed or cleared, one member added or removed by filter, attributes set |
| ScimPatch.ParseGroupPatch | internal/federation/scim/groups.go:546-632 | the loop compiles all operations to additions, removals, a clear and last-written attributes |
| ScimPatch.Groups.PatchGroup | internal/federation/scim/groups.go:187-228 | fails exactly if a text does not fit or another group of the tenant holds the external id, and then changes nothing; otherwise attributes as set, and a user a member exactly if not removed and either added and live, or a member before and the members not cleared; no other group changes; external ids stay unique |
| ScimPatch.Groups.ReplaceGroup | internal/federation/scim/groups.go:157-183 | the same failures; otherwise the name, the external id, none if empty, and exactly the live members given |
| ScimOrder.InTurnIs | internal/federation/scim/groups.go:504-506 | who is a member after changes applied in turn |
| ScimOrder.BatchIsInTurnIff | internal/federation/scim/groups.go:209-223 | batch and turn leave the same members if and only if each live added id either is never removed and an addition stands, or is removed and none stands |
| ScimOrder.PatchIsOneByOneIff | internal/federation/scim/groups.go:187-228 | for each of name, external id and members: the patch leaves what its operations, each a request of its own, leave if and only if the operations that take effect either way give the group the same last name, the same last external id, the same answer for every user |
| ScimOrder.AlwaysOneByOneIff | internal/federation/scim/groups.go:187-228 | it does so on every group if and only if the operations and the store are compatible, a condition that does not look at the group |
| ScimOrder.AcceptedIsOneByOneIff | internal/federation/scim/groups.go:209-223 | if no operation would be refused alone, name and external id always agree, and members if and only if the changes are order free |
| ScimOrder.AtomicIff | internal/federation/scim/groups.go:187-228 | the patch against the operations in sequence with the group restored if one is refused (section 3.5.2 of RFC 7644): the same name and external id, and members exactly if order free, when none is refused; the same when the patch's own update is refused; otherwise exactly what the patch does not change |
| ScimOrder.AlwaysAtomicIff | internal/federation/scim/groups.go:187-228 | on every group the two are the same if and only if no operation is refused and the changes are order free, or one is refused and so is the update with the last name and external id |
| ScimOrder.ReplacedRefusalStands | internal/federation/scim/groups.go:553-579 | a refused external id that a later operation replaces goes unnoticed in the patch and undoes the sequence |
| ScimOrder.TakenIdTakesBackName | internal/platform/database/migrations/0045_scim_groups.up.sql:8-11 | a rename sent with an external id that another group holds is undone, and stands when sent by itself |
| ScimOrder.TakenIdTakesBackMember | internal/federation/scim/groups.go:268-291 | so is an added member |
| ScimOrder.BatchOrderIsOrderFree | internal/federation/scim/groups.go:546-632 | the condition holds when clearing comes first and nothing is removed and later added |
| ScimOrder.OnlyLiveAdded | internal/federation/scim/groups.go:246-266 | new members are live users of the tenant |
| ScimOrder.RemoveThenAddDiffers | internal/federation/scim/groups.go:214-223 | remove and add again loses the user |
| ScimOrder.AddThenReplaceDiffers | internal/federation/scim/groups.go:570-575 | add and replace by others keeps the user |
| Paging.ListByTenant | internal/identity/users/repository.go:316-397 | at most as many rows as asked for, 50 if that is not 1 to 200, descending and below the cursor; without a cursor in the answer none is left over; with one the page is full and what is left over, something, is below its last row |
| Paging.FollowDescends | internal/identity/users/repository.go:348-365 | pages from a changing table come in strictly descending order, no row twice |
| Paging.FollowComplete | internal/identity/users/repository.go:390-395 | a row there in every table the pages came from is returned |
| Paging.FollowSound | internal/identity/users/repository.go:372-389 | each returned row was in one of those tables |
| Paging.TraversalIsExact | internal/identity/users/repository.go:313-316 | the two together, from the start to the end |
| Paging.FixedTable | internal/identity/users/repository.go:390-395 | on a fixed table as many requests as pages return exactly the table, and end |
| Paging.ListAudit | internal/operations/audit/http.go:51-112 | the same page of the audit list, but its cursor is the first row left over |
| Paging.AuditListed | internal/operations/audit/http.go:107-110 | a row of a fixed table is listed exactly if its position is not limit modulo limit + 1 |
| HubBuffer.StepKeeps | internal/operations/activity/hub.go:135-157 | each channel operation keeps: what left, is buffered and is in hand is what was offered, in order |
| HubBuffer.BufferIsSuffix | internal/operations/activity/hub.go:127-129 | in every interleaving with the consumer the buffer is a contiguous suffix of the events offered, none is lost on the retry, and a drop had 256 waiting at the first try |
| HubBuffer.NewestIsKept | internal/operations/activity/hub.go:135-157 | the newest event is never the one dropped |
| HubBuffer.DropWithRoom | internal/operations/activity/hub.go:140-144 | a drop may come when the consumer has made room meanwhile |
| Hub.Table.Subscribe | internal/operations/activity/hub.go:67-75 | appended to the tenant's list, in place or in a copy; other tenants' lists unchanged; no list names a subscriber twice |
| Hub.Table.Unsubscribe | internal/operations/activity/hub.go:77-93 | the list without the subscriber, shifted in place; other tenants' lists unchanged; the lists stay free of repeats |
| Hub.Table.DeliverAt | internal/operations/activity/hub.go:135-157 | one round on a list taken now or earlier changes one buffer, of a subscriber of the event's tenant |
| Hub.RoundIsRun | internal/operations/activity/hub.go:135-157 | what a round leaves in a buffer is what the channel operations of HubBuffer leave when the consumer takes nothing meanwhile |
| Hub.Table.FanOut | internal/operations/activity/hub.go:130-158 | undisturbed, every subscriber of the tenant's list gets the event, the oldest dropped if full, and every other registered subscriber's buffer stays, of whatever tenant |
| Hub.Table.FanOutDisturbed | internal/operations/activity/hub.go:123-135 | while any number of others join and leave between rounds, those who joined meanwhile included, no event reaches another tenant's subscriber |
| Lockout.LoginAttempts.LoginLockedUntil | internal/access/authentication/lockout.go:25-38 | locked exactly while before the stored time, and until then |
| Lockout.LoginAttempts.RecordFailedLogin | internal/access/authentication/lockout.go:40-64 | one failure for a new email or after fifteen minutes' pause, one more otherwise; locked for fifteen minutes from the fifth; the alarm is for the fifth exactly; no other email changes |
| Lockout.LoginAttempts.CheckPassword | internal/access/authentication/service.go:629-657 | while locked nothing is looked up or counted; unknown emails and wrong passwords count alike; success clears |
| Lockout.SixFailuresSpan | internal/access/authentication/lockout.go:14-23 | any six failures recorded in a row span fifteen minutes |
| Lockout.FailureRate | internal/access/authentication/lockout.go:14-23 | any 5k + 1 span k times fifteen minutes |
| SamlSignature.Node.MoveSignatureAfterIssuer | internal/federation/saml/idp.go:498-530 | the children become those of the specification, by the source's index arithmetic |
| SamlSignature.MovedPlaces | internal/federation/saml/idp.go:491-497 | the first signature ends right behind the first issuer, all other children keep their order, none is lost |
| SamlSignature.AgainIff | internal/federation/saml/idp.go:498-530 | doing it again changes nothing exactly when at most one signature came before the issuer |

## Left out

- YamlGraph.ExpandAliases: the document comes from the YAML parser, which lets an alias name only a node that is completed before it or encloses it.
- OpenApiSplit.DoSplit: requires the openapi and info nodes, which the source follows without looking; reading and writing of files and YAML text is taken to keep alias-free trees.
- OpenApiSplit.ClassifyPath: upper and lower case of method names is that of ASCII; the wording of the errors is not modelled.
- OpenApiVerify.SplitPassesVerify: assumes distinct component names, none of them "$ref".
- OpenApiRoundTrip.MergeUndoesSplit: assumes distinct section and component keys, none "$ref", and complete info entries.
- Json.PrintInjective: number tokens are taken as they stand; strings that are not valid UTF-8 and struct values in metadata are not modelled.
- AuditChain.NormaliseRecovers: how a number is printed after JSONB and a float64 have held it is a parameter; numbers too large for any float64, at which the verifier fails, are not modelled.
- AuditChain.Verify: hashes are taken as trimmed; rows from before the hash columns are not listed by the query and do not occur.
- AuditRuns.VerifiesIffOrdered: the print of a time, the cast to inet and the advisory key are parameters; a failing statement is a rollback; isolation is read committed, the default.
- AuthStore.Tables.Signup: the refusal of an email already in use and the password row are outside; ids are new.
- AuthRevocation.RevokedIff: rows are never deleted; hard-deleting a user, which takes his sessions and tokens along, is not modelled.
- AuthStore.Tables.Refresh: signing of access tokens, the audit and outbox rows and deadlock aborts are not modelled beyond an abort at any time; token values are fresh numbers.
- OidcRuns.ReplayEndsAll: calls one at a time; a rotation under way during the revocation can add a row that it does not see.
- OidcStore.Tables.ExchangeCode: a crash between spending the code and inserting the refresh token is not modelled; id tokens, consent rows and the JWT are not either.
- OidcStore.Tables.Introspect: the branch for access tokens, which only verifies a signature, is not modelled.
- PollGrant.PassRate: the clock read by successive polls of one code does not go back.
- DeviceGrant.DeviceCode.Decide: the consent row and the retry on a user code already in use are not modelled; a deleted user of the tenant may still approve, as in the query.
- CibaGrant.BackchannelAuthorize: client authentication, the notification and the lower-casing of the hint are outside; the users map holds the live users of the client's tenant by email.
- ScimOrder.PatchIsOneByOneIff: nobody else changes the group, the users or the other groups' external ids between the requests; which texts the columns take is a parameter.
- ScimPatch.ParseGroupPatch: op names, paths and references come already trimmed, lower-cased and parsed; a remove of displayName or externalId is ignored, as in the source.
- Paging.ListByTenant: the base64 text of the cursor is taken to decode to the key it encodes.
- Hub.Table.FanOutDisturbed: others act between rounds, not between the channel operations of one round, which HubBuffer covers for one subscriber.
- Lockout.SixFailuresSpan: one clock for server and database, calls one after the other.
- The activity history cursor and listing, HTTP handlers, notifications, mail, LDAP, WebAuthn, billing and analytics.
- DeviceAuthorize's user-code alphabet, normalising and masking helpers, permission tables: nothing hard in them.
