# A Dafny model of kauth's shared-state protocols

kauth is an OpenID Connect provider over SQLite. What is hard in it is not one function but what many
requests do to the same rows, locks and channels at once. This project models those protocols as state
machines over atomic steps and proves what holds in every interleaving, and it models the three language
cores (signed state, audit filter, limited body) with the exact input conditions under which they work.

`dafny verify dfyconfig.toml` checks everything.

## How the model is built

* **Steps and runs.** A SQL statement, or a transaction with all its statements, is one step. `Apply` is the
  effect of a step, `Run` of a sequence. Theorems about runs start from empty tables and quantify over every
  sequence of steps, so over every interleaving of requests, admin actions and the cleanup job.
* **Requests.** A request is a method of a class whose fields are the tables. Between its own database
  accesses it runs arbitrary steps of the others, given as parameters, so its contract holds for every
  schedule. Each statement and each transaction of the class is proved to be the step of the same name,
  rollbacks included.
* **Time** is whole seconds on a clock that never goes back; a write and its timestamp are one step.
* **Random values** (codes, tokens, family ids) never repeat: a step that names a value drawn before has no
  effect. Hashing a secret is identified with its hash; S256 and the MAC are arbitrary functions.
* **Failures.** Each database or signing call of a request may fail; parameters say which do.

## The files

| file | what it holds |
|---|---|
| `SessionLedger`, `SessionInvariants`, `SessionHistory`, `SessionLifetimes`, `SessionStore` | refresh-token families and authorization codes: steps, family shape, what is final, what each step does row by row and how long a session or code lasts, the token endpoint |
| `AccountLedger`, `AccountInvariants`, `AccountHistory`, `AccountLifetimes`, `AccountStore` | users, external identities, link invites, admin approval: steps, what is final, how long an approval or invite lasts, the handlers |
| `AccountResolution` | identity resolution under races: what a login answers and leaves behind, as a relation to the schedule of the others |
| `AdminTransactions` | address change, unlinking and deactivation across sessions, accounts and magic links |
| `EmailEpoch` | tokens that name their user by address, while addresses move between users |
| `MagicTokens` | the quota that is counted in the table itself |
| `Discovery` | the single-flight, stale-while-revalidate cache with back-off |
| `AuditQueue`, `AuditService` | the bounded channel, its writer and its closing protocol |
| `Sql`, `AuditFilter`, `AuditQuery`, `Timestamps` | the audit filter: SQL grammar and three-valued logic, the clauses, the loops that build them, the links |
| `StateCodec`, `Strconv` | the signed state, a printer and a right-to-left parser |
| `LimitedBody` | the reader that stops at one MiB |
| `Common`, `Strings`, `Policy` | shared definitions, trimming and splitting, the per-service policy |

## Where the code does less than one might hope

Three properties hold only up to a condition; the model keeps the code and proves the condition.

* A user returned by identity resolution was active and owned the identity in one and the same state of the
  request, except that a user who is being linked may be deactivated between the e-mail lookup and the insert.
  `AccountResolution.LinkedExactly`: they are active when the insert gives them the identity if and only if no
  deactivation of theirs lies in that gap of the schedule. `AccountResolution.LinkedWhileInactive` is a concrete
  login.
* A token issued to somebody else is accepted for a user if and only if that user is active, has the token's
  address, and got it in the very second in which the token was issued (`EmailEpoch.ForeignTokenExactly`).
  `EmailEpoch.SameSecondHandover` is a concrete run.
* A printed state reads back as its claims if and only if the nonce has no colon and the time is at most ten
  minutes past and one minute ahead (`StateCodec.ParsePrint`); the service id may be anything.

## Model

| member | source | states |
|---|---|---|
| `SessionInvariants.FamilyShape` | internal/token/refresh.go:265-326 | In every state any run reaches, the rows of a family agree on user, service, address, end of family and revocation; a row is used exactly when its one child is stored; at most one row of a family can be consumed, within 30 days of its creation and before the end of its family. |
| `SessionInvariants.StepKeepsInv` | internal/db/gen/refresh_tokens.sql.go:12-177 | Issue, redemption, rotation, both revocations and both cleanups each keep the family shape, the one-to-one link from used codes to families, and the bookkeeping of reasons and times. |
| `SessionInvariants.RotateKeeps` | internal/token/refresh.go:265-326 | A rotation that consumes a row and inserts its child keeps one unused row per family and every parent pointer inside its family. |
| `SessionInvariants.RedeemKeeps` | internal/token/refresh.go:226-263 | A redemption keeps the shape of codes and families together. |
| `SessionInvariants.DeletingKeeps` | internal/db/gen/refresh_tokens.sql.go:58-62 | The cleanup deletes a child no earlier than its parent, so a surviving used row still has its child and no parent pointer dangles. |
| `SessionHistory.RunEvolves` | internal/db/gen/refresh_tokens.sql.go:157-177 | Over any run, used and revoked never go back, a first reason is never overwritten, a new row of a known family appears only while the family has an unused, unrevoked row, and a used code never changes. |
| `SessionHistory.DeadForever` | internal/token/refresh.go:373-391 | Once every stored row of a family is revoked, no continuation stores a usable row of it or rotates one. |
| `SessionHistory.RevocationIsFinal` | internal/db/gen/refresh_tokens.sql.go:157-161 | A revoked row stays revoked with its first reason in every continuation. |
| `SessionHistory.RevokeKills` | internal/token/refresh.go:423-435 | The revoke statement reaches every row of the family, also a child committed just before it. |
| `SessionHistory.AtMostOneWinner` | internal/db/gen/authorization_codes.sql.go:12-22 | In any run from empty tables at most one redemption of a given code succeeds. |
| `SessionHistory.RedeemedCodeStays` | internal/db/gen/authorization_codes.sql.go:12-22 | A redeemed code is never redeemable again, and as long as it is stored it names the winner's family. |
| `SessionHistory.RedemptionNamesItsRoot` | internal/token/refresh.go:226-263 | The code's family id names a family with exactly the root row of the same transaction, and no root inserted at any other time belongs to that family. |
| `SessionHistory.FailedRedemptionChangesNothing` | internal/token/refresh.go:226-263 | A wrong client, redirect URI or verifier, a used or expired code, or a failed insert leaves every table as it was. |
| `SessionLifetimes.RevokeFamilyByRow` | internal/db/gen/refresh_tokens.sql.go:157-161 | By row: the named family's unrevoked rows get flag and reason, its revoked rows keep theirs, and every row of any other family, like everything else, is the same as before. |
| `SessionLifetimes.RevocationSparesOthers` | internal/db/gen/refresh_tokens.sql.go:157-161 | Taking one family down changes for no row of another family whether it rotates. |
| `SessionLifetimes.RevokeUserByRow` | internal/db/gen/refresh_tokens.sql.go:173-177 | By row: the user's rows are revoked, keeping a first reason; other users' rows are the same. |
| `SessionLifetimes.CleanRefreshByRow` | internal/db/gen/refresh_tokens.sql.go:58-62 | By row: a row survives exactly if its expiry, or the end of its family, has not passed; at most its parent pointer changes. |
| `SessionLifetimes.SessionLasts` | internal/db/gen/refresh_tokens.sql.go:12-17 | An unused, unrevoked token rotates exactly until its expiry in every continuation in which nobody rotates it or revokes its family or user: other sessions and the cleanup never cost it. |
| `SessionLifetimes.RootByRow` | internal/token/refresh.go:153-193 | An issue or redemption adds one row, the first of its family, with the given user, address and service, ending at commit time plus the service's limit, or never without a limit; no other row changes. |
| `SessionLifetimes.RootLasts` | internal/token/refresh.go:135-193 | A new session rotates for exactly 30 days from its commit, or for the service's limit if that is shorter. |
| `SessionLifetimes.RotationByRow` | internal/token/refresh.go:265-326 | A rotation marks the parent, adds a child that agrees with it on user, address, service, family and end, and changes no other row. |
| `SessionLifetimes.ChildLasts` | internal/token/refresh.go:265-326 | A rotated session rotates for exactly 30 days from its rotation, or until the family ends if that is sooner. |
| `SessionLifetimes.FamilyEnds` | internal/token/refresh.go:163-170 | Whatever is rotated in between, no row of a family rotates at or after commit time plus the service's limit; without a limit no row ever has an end. |
| `SessionLifetimes.RedemptionByRow` | internal/db/gen/authorization_codes.sql.go:12-22 | A redemption marks its code with the new family, and no other code. |
| `SessionLifetimes.CodeLasts` | internal/auth/dispatch.go:214 | A code is redeemable for exactly 60 seconds, by exactly the client, redirect URI and S256 challenge it was made out for; attempts with anything else take nothing away. |
| `SessionStore.Store.ConsumeRefreshToken` | internal/db/gen/refresh_tokens.sql.go:12-17 | Returns a row exactly when the token is stored, unused, unrevoked and unexpired; marks that row and no other. |
| `SessionStore.Store.ConsumeAuthorizationCodeChecked` | internal/db/gen/authorization_codes.sql.go:12-22 | Hits exactly when all six conditions hold; then sets used and family on that row alone. |
| `SessionStore.Store.RevokeFamilyTokens` | internal/db/gen/refresh_tokens.sql.go:157-161 | The method does, row by row, what the revocation step is proved to do: unrevoked rows of the family get the reason, every other row and table is the same. |
| `SessionStore.Store.RotateTx` | internal/token/refresh.go:265-326 | The transaction is the ledger's rotation step; when the insert fails the consumed row is rolled back to unused. |
| `SessionStore.Store.RedeemTx` | internal/token/refresh.go:226-263 | The transaction is the ledger's redemption step, all or nothing. |
| `SessionStore.Store.RotateToken` | internal/token/refresh.go:265-326 | Under any interleaving: success is exactly a consumable row. Otherwise answer and final tables are fixed in every case: a failed insert leaves the tables as they were; a missed row is read back, and if used or revoked its family is revoked and every row of another family stays what it was just before. |
| `SessionStore.Store.ClassifyRejected` | internal/token/refresh.go:332-391 | A token read back as used or revoked leaves its family dead, with its own error and reason, and no other family's row different; an unknown token, or an unused, unrevoked one that merely expired, writes nothing at all. |
| `SessionStore.Store.KillFamily` | internal/token/refresh.go:423-435 | After the revoke statement the family is dead, and nothing but its rows is different. |
| `SessionStore.Store.RevokeFamilyOfToken` | internal/token/refresh.go:437-463 | Logout with a stored token leaves its family dead once the revocation succeeds, and every other family's rows as they were; it reports true exactly if the row was not revoked already; an unknown token writes nothing. |
| `SessionStore.Store.RefreshGrant` | internal/auth/token_endpoint.go:258-391 | A 200 means the stored user was active, the service resolved and the policy held at the lookup. Every other answer after a rotation, except a failed user lookup, leaves the family dead. Without a rotation, "reused" is answered exactly for a token read back as used, and no family but that of a used or revoked token is touched. Deactivation alone is enough. |
| `SessionStore.Store.CheckRotated` | internal/auth/token_endpoint.go:321-377 | The checks after a rotation: the first that fails names answer and reason, and the family is revoked for it. |
| `SessionStore.Store.RejectCode` | internal/auth/token_endpoint.go:202-242 | Rejects exactly a used or expired code, another client or redirect URI, or a failing verifier; a used code presented with the right client, redirect URI and verifier kills the winner's family and nothing else; in all other cases nothing is written. |
| `SessionStore.Store.CodeGrant` | internal/auth/token_endpoint.go:34-190 | Under any interleaving, with answer and final tables fixed in every case: a proven code seen used leaves the winner's family dead and every other row the same; an unproven or late attempt, and a refusal by service, user, policy or signing, writes nothing; a grant spends this code alone and adds one session for its user, who was active, with their present address and the service's limit. |
| `SessionStore.Store.GrantProven` | internal/auth/token_endpoint.go:77-190 | From the user lookup on: the redemption is tried exactly for an active, allowed user once the tokens are signed, for a root with the user's present address. |
| `SessionStore.Store.RedeemOrClassify` | internal/auth/token_endpoint.go:132-165 | A grant is exactly one committed redemption; a failed insert leaves the tables as they were; the loser of the race reads the code again and kills the winner's family if it proves the code, and writes nothing else. |
| `SessionStore.PkceExactly` | internal/auth/oidc_request.go:125-133 | With a digest that never collides, a verifier matches a challenge exactly if it is the non-empty text the challenge was made from and the method is S256. |
| `SessionStore.PassesExactlyRedeemable` | internal/auth/token_endpoint.go:202-242 | The checks before the redemption and the conditions of its UPDATE are the same for every well-formed request. |
| `Policy.CsvHasExact` | internal/auth/identity.go:299-306 | True exactly when some trimmed field equals the value; a substring is not enough. |
| `Policy.CheckPolicy` | internal/auth/identity.go:285-293 | False exactly when a required role, or the organisation of a service that enforces it, is missing from the user's fields. |
| `Strings.SplitCuts` | internal/auth/identity.go:300 | The fields of a split have no separator and joined by it give the text back. |
| `Strings.TrimExactly` | internal/auth/identity.go:301 | Trimming yields exactly the one part of the text that neither begins nor ends with white space and has nothing but white space around it. |
| `AccountInvariants.StepKeepsInv` | internal/db/gen/user_identities.sql.go:75-116 | Every account step keeps unique addresses, one owner per external identity, one approved identity per bound user, one open invite per user and provider, and the invite quota. |
| `AccountInvariants.SendKeepsQuota` | internal/db/gen/identity_link_invites.sql.go:147-155 | An insert allowed by the count in the table keeps at most five invites per user in every hour, past ones included. |
| `AccountHistory.AccountSafety` | internal/db/gen/user_identities.sql.go:75-116 | In every reachable state: one owner per (issuer, subject), at most one approved identity per user and only while bound, at most one unused invite per user and provider, at most five invites per user in any hour. |
| `AccountHistory.RunEvolves` | internal/db/gen/users.sql.go:12-95 | Public ids and bindings never change, deactivation is permanent, an address changes only with its timestamp, invites only become used. |
| `AccountHistory.OwnerStable` | internal/db/gen/user_identities.sql.go:75-116 | An external identity keeps its row and owner until that very row is unlinked; nobody else can take it over. |
| `AccountHistory.NoSecondIdentity` | internal/db/gen/user_identities.sql.go:109-114 | However first logins race, a user gets no second identity unless a service with auto_link on links one or the user's own invite does; other users' logins and invites are free. |
| `AccountHistory.ActiveUntilDeactivated` | internal/db/gen/users.sql.go:86-93 | An active user stays active exactly as long as no deactivation is in the run. |
| `AccountHistory.LinkAfterDeactivation` | internal/auth/identity.go:150-205 | A run in which a user is deactivated between lookup and insert, and ends up inactive and owning the identity. |
| `AccountHistory.BoundOnce` | internal/auth/google_admin.go:121-145 | After one approval no later one succeeds for that user, not even after the approved identity is unlinked, and no other identity of theirs is ever approved. |
| `AccountHistory.OnlyApprovedStays` | internal/db/gen/users.sql.go:12-14 | Once bound, the only identity of the user that can be approved is the one that was. |
| `AccountHistory.LinkCommit` | internal/auth/link_invite.go:341-404 | A committed link leaves the identity owned by an active user whose present address is the invite's, uses that invite alone and changes no existing identity. |
| `AccountHistory.InviteUsedOnce` | internal/db/gen/identity_link_invites.sql.go:50-55 | A used invite never validates again in any continuation. |
| `AccountHistory.OldInvitesDie` | internal/admin/users_email.go:118-126 | After an address change or a deactivation no invite sent before can finish a link. |
| `AccountLifetimes.ApprovalByRow` | internal/db/gen/user_identities.sql.go:184-188 | A successful approval binds the user now and approves the named row, with its key and user; every other identity and user is unchanged. |
| `AccountLifetimes.ApprovalLasts` | internal/auth/google_admin.go:121-145 | In every continuation the approved identity is still approved, with its key and user, if and only if nobody has unlinked it. |
| `AccountLifetimes.UnlinkByRow` | internal/db/gen/user_identities.sql.go:12-13 | Unlinking removes exactly the named row of the named user, and nothing if it is not theirs. |
| `AccountLifetimes.LinkByRow` | internal/db/gen/user_identities.sql.go:75-116 | A link adds one unapproved row with the given user and key, and changes no other. |
| `AccountLifetimes.RegistrationByRow` | internal/auth/identity.go:219-263 | A registration adds an active user with this address since now and no approval, and one unapproved identity; no other row changes. |
| `AccountLifetimes.ChangeEmailByRow` | internal/admin/users_email.go:72-126 | An address change sets address and timestamp on that user alone, uses up exactly their open invites, and changes no identity. |
| `AccountLifetimes.OldAddressIsFree` | internal/admin/users_email.go:72-126 | After an address change nobody has the old address. |
| `AccountLifetimes.DeactivationByRow` | internal/db/gen/users.sql.go:86-93 | A deactivation makes that user inactive, uses up exactly their open invites, and changes nothing else. |
| `AccountLifetimes.SendByRow` | internal/admin/users_invite.go:187-213 | A new invite is stored for 24 hours, and of the others only the open one for the same user and provider is used up. |
| `AccountLifetimes.QuotaExactly` | internal/db/gen/identity_link_invites.sql.go:147-155 | The count in the table refuses exactly when five invites were sent to the user in the last hour, used, burned or cleaned away. |
| `AccountLifetimes.CleanInvitesByRow` | internal/db/gen/identity_link_invites.sql.go:88-89 | The cleanup deletes exactly the invites a week past their expiry. |
| `AccountLifetimes.InviteLasts` | internal/db/gen/identity_link_invites.sql.go:50-55 | In every continuation without a step aimed at it, an invite validates for exactly 24 hours, at exactly its own service and provider; what other users do never ends it. |
| `AccountLifetimes.RevokedInviteDies` | internal/db/gen/identity_link_invites.sql.go:239-241 | A revoked invite never validates again. |
| `AccountLifetimes.ReplacedInviteDies` | internal/db/gen/identity_link_invites.sql.go:12-14 | A new invite ends the earlier one for the same user and provider for good. |
| `AccountStore.Store.InsertIdentity` | internal/db/gen/user_identities.sql.go:75-80 | Inserts exactly when nobody owns the identity, and reports it. |
| `AccountStore.Store.LinkIdentityIfFirst` | internal/db/gen/user_identities.sql.go:109-116 | Inserts exactly when nobody owns the identity and the user has none, in one step. |
| `AccountStore.Store.InsertUser` | internal/db/gen/users.sql.go:42-47 | Succeeds exactly when address and public id are free. |
| `AccountStore.Store.RegisterTx` | internal/auth/identity.go:219-263 | User and identity together, as two new rows with no other row changed, or neither. |
| `AccountStore.Store.BindAdminTx` | internal/auth/google_admin.go:121-145 | Binds exactly when the user is unbound and owns the identity; then user and named row carry the approval and no other row changes, and otherwise nothing does: a failed approval leaves the user unbound. |
| `AccountStore.Store.UnlinkTx` | internal/admin/users_identity.go:41-61 | Deletes exactly the named identity of the named user, and keeps every other row. |
| `AccountStore.Store.ChangeEmailTx` | internal/admin/users_email.go:72-126 | Changes the address exactly when the user exists and nobody, themselves included, has the new one; then exactly the open invites of that user are used up, and no other row changes. |
| `AccountStore.Store.DeactivateTx` | internal/admin/users.go:431-441 | Deactivates and uses up every open invite in one step. |
| `AccountStore.Store.RevokeLinkInvite` | internal/db/gen/identity_link_invites.sql.go:239-241 | Uses up exactly an open invite of that user. |
| `AccountStore.Store.SendInviteTx` | internal/admin/users_invite.go:187-213 | Refuses exactly when five invites were sent to the user in the last hour, and then restores the previous invite; else stores one invite for 24 hours and uses up exactly the open one it replaces. |
| `AccountStore.BurningKeepsCount` | internal/db/gen/identity_link_invites.sql.go:22 | Burned rows still count, so burning never opens the quota. |
| `AccountStore.Store.FinishLinkTx` | internal/auth/link_invite.go:341-404 | Success is exactly an open, unexpired invite for this service and provider whose user is active with an unchanged address, and an identity that is free or already theirs; every rejection has its reason and leaves invite and identities as they were. |
| `AccountStore.Store.ResolveMatched` | internal/auth/identity.go:132-148 | The owner of the row found at one access is returned if active at the next and refused otherwise; nothing is written. |
| `AccountStore.Store.ResolveLost` | internal/auth/identity.go:185-217 | After a lost insert nothing is written, and what the next two accesses see decides between the present owner, a denial and an error. |
| `AccountStore.Store.InsertLink` | internal/auth/identity.go:150-184 | Inserts exactly when the identity is free and, without auto_link, the user has none, and is then that one step. |
| `AccountStore.Store.ResolveLink` | internal/auth/identity.go:150-205 | Answer and final tables as the accesses after the lookup decide: one inserted row, followed by the others' steps alone, or none. |
| `AccountStore.Store.RegisterNew` | internal/auth/identity.go:219-263 | Registers exactly when no unique index stands in the way, and otherwise writes nothing and asks for another round. |
| `AccountStore.Store.ResolveOnce` | internal/auth/identity.go:97-130 | One round: owner, address and registration in this order, each decided by what this request's own accesses see under the given schedule. |
| `AccountStore.Store.Resolve` | internal/auth/identity.go:83-95 | At most two rounds, the second only after a lost registration; answer and final tables stand in the relation `Resolved` to the schedule of the others, about which the next rows speak. |
| `AccountResolution.MatchedWasActiveOwner` | internal/auth/identity.go:132-148 | A known user owned the identity, in the row answered with, and was active, in one and the same state this login passed through. |
| `AccountResolution.LinkedExactly` | internal/auth/identity.go:150-205 | A linked user was active with the login's address when looked up; the insert gave them the identity, and they are active then if and only if nobody deactivated them in between; the final tables are that insert followed by the others' steps. |
| `AccountResolution.LinkedWhileInactive` | internal/auth/identity.go:150-205 | The exception is real: a login answered with a user who is inactive as long as they own the identity. |
| `AccountResolution.RegisteredIsNew` | internal/auth/identity.go:219-263 | A registered user, their address and the identity were new; they are active and own it; no other row changed. |
| `AccountResolution.RefusalWritesNothing` | internal/auth/identity.go:83-263 | No account, denied, inactive, conflict and a known user leave the tables exactly as the other requests alone made them. |
| `AccountResolution.RefusalHasItsReason` | internal/auth/identity.go:83-263 | No account: no owner, and no trusted address or nobody active at it. Denied: auto_link off, link blocked, and not the user's on two more readings. Conflict: a unique index blocked both registrations. Each at the accesses of the round that answered. |
| `AccountResolution.InactiveWasDeactivated` | internal/auth/identity.go:132-139 | Refused as inactive means an owner who was deactivated when read. |
| `AccountResolution.ErrorMeansVanished` | internal/auth/identity.go:185-207 | An error means an identity seen owned, or just inserted, was gone when read back. |
| `AccountResolution.WithoutAutoLinkOnlyFirst` | internal/auth/identity.go:150-184 | A login at a service with auto_link off writes nothing, creates a new user, or adds the identity to a user who at that very moment has none. |
| `AccountResolution.HistoryDescribes` | internal/auth/identity.go:83-95 | The states the relation speaks of are those of the schedule: the start, then the others' steps before each access. |
| `AdminTransactions.Database.ChangeEmail` | internal/admin/users_email.go:72-126 | Revocation, new address, burned magic links and burned invites happen together, exactly when the address can be taken, or none of them does. |
| `AdminTransactions.Database.Unlink` | internal/admin/users_identity.go:41-61 | The identity goes and the user's sessions with it, or nothing. |
| `AdminTransactions.Database.Deactivate` | internal/admin/users.go:431-471 | The deactivation stands whether or not the later revocation succeeds. |
| `AdminTransactions.AddressChangeCutsOff` | internal/admin/users_email.go:72-126 | After an address change, in every continuation, no earlier session of the user is rotated, no earlier invite links and no earlier magic link of either address is consumed. |
| `AdminTransactions.SessionsStayDead` | internal/db/gen/refresh_tokens.sql.go:173-177 | Sessions revoked for a user never rotate again. |
| `AdminTransactions.LinksStaySpent` | internal/db/gen/magic_tokens.sql.go:12-19 | Magic links burned by address are never consumed afterwards. |
| `EmailEpoch.AcceptedTokenIsTheirs` | internal/token/epoch.go:31-54 | Over every run of account steps and token issues, a token accepted by the admin middleware or by dispatch for a user finds them active under its address, and was issued to them, unless issued in the second they got that address. |
| `EmailEpoch.ForeignTokenExactly` | internal/token/epoch.go:43-54 | In every run, another user's token is accepted for a user if and only if that user is active, has the address, and got it in the second of issue; dispatch asks in addition that the token names its user by address. |
| `EmailEpoch.AcceptedExactly` | internal/admin/middleware.go:57-78 | A token is accepted for a user, by some check, if and only if the user is active, has the token's address and got it no later than the token was issued. |
| `EmailEpoch.EachCheckExactly` | internal/auth/dispatch.go:168-207 | For each of the four checks by itself: accepted if and only if the user is active, has the token's address since its issue or longer, and the subject is the one that check wants. |
| `EmailEpoch.DeactivationLocksOut` | internal/admin/middleware.go:57-78 | After a deactivation no token is accepted for that user, by any check, in any continuation. |
| `EmailEpoch.IdTokenNeverMoves` | internal/auth/dispatch.go:168-207 | A token that names its user by public id is forwarded or exchanged for that user only, without exception. |
| `EmailEpoch.HolderKeepsAccess` | internal/admin/middleware.go:57-78 | And no stricter than needed: in every run a token keeps being accepted for its user by every check, as long as their address stays and they are not deactivated. |
| `EmailEpoch.SameSecondHandover` | internal/token/epoch.go:43-54 | The exception is real: a run in which another user's token is accepted. |
| `EmailEpoch.WorldStepKeeps` | internal/admin/users_email.go:72-126 | Each step, address changes included, keeps the fact that whoever else has a token's address got it no earlier than the token was issued. |
| `MagicTokens.SlidingQuota` | internal/db/gen/magic_tokens.sql.go:107-114 | Over every run with burning, use and cleanup in between, no 15-minute window holds more than three links for one address and purpose. |
| `MagicTokens.CleaningNeverReopens` | internal/jobs/cleanup.go:64-75 | The cleanup deletes only rows the quota has stopped counting. |
| `MagicTokens.UsedStaysUsed` | internal/db/gen/magic_tokens.sql.go:33-37 | A used or expired link is never consumed again. |
| `MagicTokens.ConsumedForGood` | internal/db/gen/magic_tokens.sql.go:33-37 | After a login with a link, no login with it succeeds in any continuation. |
| `MagicTokens.AtMostOneLogin` | internal/db/gen/magic_tokens.sql.go:33-37 | In any run from an empty table at most one login with a given link succeeds. |
| `MagicTokens.LinkLasts` | internal/db/gen/magic_tokens.sql.go:33-37 | A new link logs in for exactly 15 minutes and for exactly its purpose, unless it is used before or its address is changed; other links, other addresses and the cleanup never cost it. |
| `MagicTokens.InsertsExactly` | internal/db/gen/magic_tokens.sql.go:107-114 | The count in the table refuses exactly when three links for the address and purpose were issued in the last 15 minutes, gone or not. |
| `MagicTokens.InsertKeeps` | internal/db/gen/magic_tokens.sql.go:107-114 | An insert allowed by the count in the table keeps the bound for every window. |
| `MagicTokens.Store.StoreToken` | internal/auth/magic.go:188-217 | Reports true exactly when a row was inserted, unused and good for 15 minutes, with no other row changed; changes nothing otherwise, a failed insert included. |
| `MagicTokens.Store.ConsumeToken` | internal/db/gen/magic_tokens.sql.go:33-37 | Returns a row exactly for a stored, unused, unexpired link of that purpose; that row is used afterwards and every other is unchanged. |
| `MagicTokens.Store.BurnTokens` | internal/db/gen/magic_tokens.sql.go:12-19 | Leaves no consumable link for either address, and every other address's rows as they were. |
| `MagicTokens.Store.CleanTokens` | internal/jobs/cleanup.go:64-75 | Is the cleanup step that the quota theorems allow; it deletes no unexpired row and changes none. |
| `Discovery.CacheIsSafe` | internal/idp/registry.go:242-304 | Over every interleaving: at most one fetch runs; none starts within 60 seconds of a failure or 24 hours of a success; every caller gets a value or an error, never both or neither; a value served without waiting is the last success and under seven days old, an error served without waiting is that of the last fetch to end, under 60 seconds ago. |
| `Discovery.ServedExactlyWhileUsable` | internal/idp/registry.go:251-264 | A caller is served at once if and only if the last success is under seven days old, however many renewals failed since, and gets that success. |
| `Discovery.RefusedExactlyInBackOff` | internal/idp/registry.go:264-269 | A caller gets an error at once if and only if no value is usable, no fetch runs, and the last fetch to end failed with that error under 60 seconds ago. |
| `Discovery.FetchStartsExactlyWhenQuiet` | internal/idp/registry.go:258-273 | A call starts a fetch if and only if none runs and every completion on record is far enough back. |
| `Discovery.WaiterIsReleased` | internal/idp/registry.go:274-304 | With anything at all happening before, between and after, the end of a fetch, the closing of its channel and the waking hand a waiting caller the result of that fetch. |
| `Discovery.WaiterKeepsItsFlight` | internal/idp/registry.go:274-280 | Under any schedule, during the fetch and after it, a waiting caller waits for the same flight, and what that has settled on is final. |
| `Discovery.StepKeepsInv` | internal/idp/registry.go:242-304 | Every critical section keeps the cache fields equal to what the history of fetches says. |
| `Discovery.Entry.StartLocked` | internal/idp/registry.go:282-286 | Is the starting step of the state machine. |
| `Discovery.Entry.Discover` | internal/idp/registry.go:248-275 | The locked section is the call step; it answers at once or leaves the caller waiting for the flight. |
| `Discovery.Entry.Finish` | internal/idp/registry.go:288-301 | The locked section of fetch is the settling step, which on failure touches only error, back-off and flight. |
| `Discovery.Entry.CloseDone` | internal/idp/registry.go:302-303 | Publishing hands the settled result to the waiters. |
| `Discovery.Entry.Await` | internal/idp/registry.go:275-280 | The wait ends with the flight's result or the caller's own cancellation, one of value and error. |
| `AuditQueue.EveryEventIsInOnePlace` | internal/audit/service.go:77-185 | Over every interleaving: no send on and no second close of the closed channel, at most its capacity queued, accepted events are handed over, discarded, held or queued, once each and in order, and every finished Log is there or counted as dropped. |
| `AuditQueue.NilMeansDrained` | internal/audit/service.go:164-185 | When a Close returns nil and none gave up, every accepted event was handed to write, and the counters agree. |
| `AuditQueue.RunEvolves` | internal/audit/service.go:77-99 | Events reach write in the order of acceptance; a closed queue accepts nothing and remembers the count at closing; after a Close gave up nothing more is handed to write; what became of a Log is final. |
| `AuditQueue.ClosedQueueDrains` | internal/audit/service.go:77-99 | From any reachable state with the channel closed, the writer alone reaches its end in as many turns as events are queued, having written everything unless a Close gave up. |
| `AuditQueue.CloseReturns` | internal/audit/service.go:176-179 | So a waiting Close can always return nil. |
| `AuditQueue.StepKeepsInv` | internal/audit/service.go:122-185 | Every lock, channel and field operation keeps mutual exclusion, the closing order, the flow of events and the counts. |
| `AuditService.Service.Select` | internal/audit/service.go:127-135 | The non-blocking send never meets a closed channel and succeeds exactly when there is room. |
| `AuditService.Service.CloseCh` | internal/audit/service.go:169-173 | The first Close finds the channel open; no later one closes it again. |
| `AuditService.Service.Log` | internal/audit/service.go:122-137 | Under any interleaving: queued exactly when open at the check and with room at the send; then the event is in exactly one place, else it is counted as dropped. Apart from what the others did, the call makes its own steps and no more. |
| `AuditService.Service.Close` | internal/audit/service.go:164-185 | Nil exactly when the select meets a writer that has ended and takes that case; then the queue is empty and everything accepted was written unless a Close gave up. An error only after the caller's context ended, and then writing stops. Otherwise it is blocked or waits; it makes its own steps and no more. |
| `AuditService.Service.Serve` | internal/audit/service.go:80-94 | One turn of the loop takes the oldest event and either hands it to write or, only after a Close gave up, discards it; it leaves the loop exactly when the closed channel is empty. |
| `AuditService.Service.AwaitWriter` | internal/audit/service.go:176-184 | The final select of Close: which case it takes, and what that leaves behind. |
| `Timestamps.DayBounds` | internal/admin/audit_filter.go:241-255 | Comparing a stored timestamp as text with the bounds of a day compares days, for all days and timestamps of the years 0 to 9999. |
| `Timestamps.ParsedDayPrintsBack` | internal/admin/audit_filter.go:241-247 | A day that parses is spelt the one way it prints, so reformatting changes nothing. |
| `Timestamps.PrintedDayParses` | internal/admin/audit_filter.go:241-247 | Every valid day parses from its print. |
| `Timestamps.CalendarTable` | internal/admin/audit_filter.go:241-247 | The days of each month are those of the Gregorian calendar, the leap day in years divisible by 400, or by 4 and not by 100. |
| `Sql.LikeIsSearch` | internal/admin/audit_filter.go:236-239 | For every text and needle, LIKE over the escaped needle between percent signs is literal search up to the case of ASCII letters. |
| `Sql.EscapedMatchesPrefix` | internal/admin/audit_filter.go:236-239 | An escaped needle with an open end matches exactly the texts that begin with it. |
| `Sql.ParenthesesParse` | internal/admin/audit_filter.go:186-192 | Two tests joined by OR inside parentheses parse as one unit under SQL's precedence. |
| `AuditFilter.CompiledMeansFilter` | internal/admin/audit_filter.go:99-166 | For every filter and row, the joined text with its positional arguments, parsed and evaluated with three-valued logic, selects the row if and only if the filter describes it. |
| `AuditFilter.NotIsTheComplement` | internal/admin/audit_filter.go:228-233 | Switching a search to "not" selects exactly the other rows, rows without a value included. |
| `AuditFilter.ChoiceMeans` | internal/admin/audit_filter.go:169-193 | The clause of a choice selects rows with one of the named values, and rows without a value exactly when the sentinel is chosen. |
| `AuditFilter.OutcomeMeans` | internal/admin/audit_filter.go:196-209 | The success clause selects rows whose number is among those given; other values restrict nothing. |
| `AuditFilter.SearchMeans` | internal/admin/audit_filter.go:228-233 | The clause of a text search means the search, in both forms. |
| `AuditFilter.SinceMeans` | internal/admin/audit_filter.go:121-124 | The lower bound keeps rows from that day on; an invalid date restricts nothing. |
| `AuditFilter.UntilMeans` | internal/admin/audit_filter.go:125-128 | The upper bound keeps rows up to the end of that day. |
| `AuditFilter.JoinedMeansAll` | internal/admin/audit_filter.go:99-105 | Joining clauses with AND keeps each clause whole and gives each its own arguments. |
| `AuditQuery.CleanChoices` | internal/admin/audit_filter.go:211-219 | The loop keeps the trimmed non-blank values in order. |
| `AuditQuery.ChoiceClause` | internal/admin/audit_filter.go:169-193 | The built clause and arguments are those proved to mean the choice. |
| `AuditQuery.SuccessClause` | internal/admin/audit_filter.go:196-209 | The built clause and arguments are those proved to mean the outcome. |
| `AuditQuery.AuditClauses` | internal/admin/audit_filter.go:117-166 | The loops build one clause per active filter, in order, with as many arguments as parameters. |
| `AuditQuery.BuildAuditQuery` | internal/admin/audit_filter.go:99-105 | The query built selects exactly the rows the filter describes. |
| `AuditQuery.LinksKeepTheQuery` | internal/admin/audit_filter.go:35-82 | For every query string, following a page or export link gives the same clauses and arguments again. |
| `Strconv.ParseFormat` | internal/auth/state.go:98-100 | Every 64-bit number parses from its print. |
| `Strconv.FormatNatExactly` | internal/auth/state.go:98-100 | The print of a number is the one text of digits with that value and no leading zero. |
| `Strconv.ParseIntExactly` | internal/auth/state.go:174 | Exactly an optional sign, at least one digit and a value of 64 bits are read, as that value. |
| `StateCodec.SignersReadBack` | internal/auth/state.go:63-191 | For every service id, colon-free nonce, valid slug and positive invite id, each of the five signers' states reads back as exactly its claims from 60 seconds before to 600 seconds after it was signed, and as nothing at any other time. |
| `StateCodec.ParsePrint` | internal/auth/state.go:124-191 | A printed payload reads back as its claims if and only if the nonce has no colon and its time is at most 600 seconds past and 60 ahead; outside that interval nothing is read. |
| `StateCodec.AcceptedExactly` | internal/auth/state.go:124-191 | The accepted payloads are exactly the prints of claims with one purpose, a colon-free nonce and a time at most 600 seconds past and 60 ahead; each reprints to itself. |
| `StateCodec.PurposesDisjoint` | internal/auth/state.go:63-96 | Prints of different claims or times differ, so no state of one purpose passes for another. |
| `StateCodec.VerifyTakesPlainOnly` | internal/auth/state.go:110-116 | VerifyState answers a service if and only if the state carries the MAC of a plain payload for it whose time is at most 600 seconds past and 60 ahead. |
| `StateCodec.PlainStateExpires` | internal/auth/state.go:187 | A signed plain state answers its service from 60 seconds before to 600 seconds after it was signed, and never outside. |
| `StateCodec.SlugExactly` | internal/auth/state.go:32 | A slug is one to 32 characters, each of a-z, 0-9 or the hyphen. |
| `LimitedBody.EveryReadIsSound` | internal/idp/httpclient.go:155-168 | For every sequence of buffers and chunks: delivered bytes are a prefix of at most 2^20, the end is reported only after the whole source, and "too large" exactly when more than 2^20 bytes came in. |
| `LimitedBody.DeliveredExactly` | internal/idp/httpclient.go:155-168 | For every sequence of buffers and chunks, delivered is exactly the source up to what was asked for, its own end, and 2^20 bytes. |
| `LimitedBody.SmallBodyPasses` | internal/idp/httpclient.go:155-168 | A source of at most 2^20 bytes never fails for its size. |
| `LimitedBody.SmallBodyArrives` | internal/idp/httpclient.go:155-168 | It is delivered whole if and only if the reads asked for all of it. |
| `LimitedBody.LargeBodyFails` | internal/idp/httpclient.go:155-168 | A longer source delivers exactly 2^20 bytes and then fails on every Read, as soon as and only when the reads asked for more than 2^20 bytes. |
| `LimitedBody.LimitedReader.Read` | internal/idp/httpclient.go:155-168 | The method over the caller's buffer is the step the theorems speak of; the caller gets the front of the buffer. |

## Left out

- HTTP, cookies, redirects, templates, mail, translations and audit wording: input and output.
- Cryptography, JWT, go-oidc, oauth2 and SQLite itself: arbitrary functions, injective where it matters, or atomic steps.
- The origin check and the form parsing in front of the token endpoint, and the claims of the tokens it returns.
- ISO 8601 durations: a service's refresh-token limit is given in seconds; one that does not parse fails before anything is written.
- Row ids: refresh rows are keyed by their hash, and a parent is named by the parent's hash.
- The two audit follow-ups of reuse (the gap label and its child lookup), which read and log only.
- Cascades on deleted users and services: no code path deletes either.
- Touching last-login and last-seen columns.
- SessionStore.Store.RotateToken: when the presented row is cleaned away before it is read back, the code does not know its family, and nothing is claimed about one.
- AccountStore.Store.Resolve: database errors inside the resolution, other than a vanished row, are not among its outcomes.
- EmailEpoch.AcceptedTokenIsTheirs: signature, purpose, audience, role and freshness checks come first in the code and only shrink what is accepted; a database error on levels 1 to 5 forwards the token unchecked and is excluded, and issuing a token reads the user and signs in one step.
- MagicTokens.Store.StoreToken: the admin panel's magic links share table, quota and lifetime and are the same insert step with the other purpose.
- Discovery.CacheIsSafe: one provider's entry; what a fetch does on the network is its result. Reloading service assignments is not part of this model.
- AuditService.Service.Log: a capacity of zero would need a receiver at the send; the service always has 1024. The do-nothing service without a database is not modelled.
- AuditQueue.EveryEventIsInOnePlace: handed to write counts an attempt; whether the insert succeeds is not recorded by the code either.
- AuditFilter.CompiledMeansFilter: SQL is given by its words, not its spelling; rows carry timestamps in the one format the service writes; texts are without NUL characters and patterns within SQLite's length limit.
- AuditQuery.LinksKeepTheQuery: percent-encoding of the query string is taken as undone by decoding.
- StateCodec.SignersReadBack: the clock is read as whole seconds, so a fraction of a second at the edge of the window is not modelled.
- LimitedBody.LimitedReader.Read: the early refusal by Content-Length is a separate check in the transport.
- Google, Microsoft, GitHub and generic provider flows, service administration, CSV export, configuration and migrations: straight-line checks and field copies.
