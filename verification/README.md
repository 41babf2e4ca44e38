# dev.site in Dafny

A model of the parts of dev.site whose correctness is hardest to see by reading, with proofs
about every input, every run or every reachable state. It has five parts.

**Presentations** (`Text`, `Scanner`, `Values`, `ValueGrammar`, `FolderNames`, `FolderGrammar`,
`Theme`, `ThemeGrammar`, `ThemeTable`, `Layout`). The parser and printer of profile presentations,
with their comment stripper, their two other quote-aware scanners, the nested colour grammar and
the JSON folder lists. The loops of the server are loops here, each proved against a recursive
function; the lemmas are about those functions. The three `Grammar` modules say what is accepted
and what it means without the code that decides it, down to `ThemeGrammar.ParseExact` about whole
sources. `Theme` is stated for any table of properties that satisfies `GrammarOk`, and
`ThemeTable` shows that the server's table does, with any table of colour names.

**Sharing** (`State`, `Database`, `Sharing`, `Requests`, `ShareLists`, `Plan`, `Handlers`). The
tables are a value in `State` and fields that the methods of `Database.Db` update statement by
statement; every method is proved to do to the whole value what `State` says. `Sharing` has the
invariant and the agreement of the three places that decide access, with exactly when each holds.
`ShareLists` says which accounts a list names and which requests are accepted. `Plan` has the plan
builder and the proof that an apply does what the plan says.

**Runs of the control plane** (`Access`, `Entitlement`, `ControlPlane`, `Reachable`, `Consent`,
`SingleUse`, `Sessions`, `Brokered`, `Machines`, `EndpointKeys`, `Limits`, `Runs`,
`BrokerProgress`). A step is what one request does under one hold of the database lock. Requests
that take the lock twice (enrolment, everything a machine credential authenticates, the capability
check and the minting after it) are separate steps with any steps in between; what a request has
read and may still act on is kept in the world, and it may act on it at any later time. Each
request reads the clock before it takes the lock, so its time is any earlier one. `IsRun` starts
from the empty database. `IsTrace` is what the invariants need of a run; `RunIsTrace` derives it.
`Entitlement` has each check as an if and only if, and `BrokerProgress` the way from a request to
a brokered session. `Runs` builds the runs in which two expected properties fail.

**Capabilities and streams** (`Statements`, `Endpoints`, `Capability`, `Replay`, `EndToEnd`,
`Streams`, `Revocation`, `Progress`, `GrantRuns`). The signed statements as bytes, the grants, a
daemon's decision and its pruning replay guard, the joint run of control plane and daemon, and the
streams that a polled snapshot with a lease closes. In `EndToEnd` a request arrives, its handler
reads the clock, and later takes the guard, with the steps of other handlers in between.
`Revocation` adds the streams those handlers open and the refresh loop, whose request is answered
from the tables at one time and the answer delivered, or lost, at another; its last theorem bounds
the time from the moment a viewer can no longer see a resource to the last open stream. `Progress`
is the other direction: from every state, an invited viewer who accepts comes to an open stream.
`GrantRuns` builds a run of `EndToEnd`.

**Two more machines** (`RateLimiting`, `ProfileStream`). The request limiter that drops windows,
and the live profile page that subscribes before it takes its snapshot.

What is assumed, each where it is used: random ids and tokens are never drawn twice, and token
hashes are the tokens (`Draws`, `nonces`); a signature that verifies is on something that was
signed (`Unforgeable`, `ProofUnforgeable`); what endpoint keys sign are the three statements of
`Statements`, and what the server's key signs is told apart by what it decodes to
(`Capability.Payload`); the control plane and a daemon share one clock that does not go back; a
request is made by the account it names (sign-in is not modelled).

Two places where the code and its comments differ; the model follows the code.

- `crates/devsite-server/src/api.rs:1685` says that parsing a stored theme again always succeeds.
  It does exactly when the canonical text is within two length limits (`Theme.RoundTrip`), and
  `ThemeTable.ServerTextCanBeRefused` gives an accepted text for which it does not: canonical
  text has spaces that the source need not have.
- `crates/devsite-server/src/api.rs:2490` says that revoking a share may have cascaded a session
  away. It does not; such a session stays until it ends or expires (`Sessions.SessionLasts`), and
  is refused when a capability is asked for (`EndToEnd.GrantIsSound`).

Properties that one might expect and that the code does not have, each with a failing input or
run and the exact condition under which it holds.

- A grant is accepted once. It still verifies at its expiry, while the guard keeps entries only
  until then. After a grant has been accepted, the same request is accepted again exactly in the
  second of its expiry (`Replay.LastSecondIsAdmittedAgain`), and `GrantRuns.GrantAcceptedTwice` is a
  whole run that does so. A handler reads the clock before it takes the guard, so handlers that
  overlap can hand the guard readings out of order; for any order, `Replay.VerdictExact` says
  exactly which calls are refused, and `EndToEnd.AcceptedOnce` that between two acceptances of a
  grant the guard was given a reading at or after its expiry.
- No two credentials are bound to one key. The unique index is on the text of an endpoint id, and a
  key has many texts (`Endpoints.SameKeyExact`); `Runs.OneKeyBoundTwice` is a run in which one key
  is bound twice. The keys stay distinct exactly when no enrolment binds a text that is, in lower
  case and trimmed, a bound one (`EndpointKeys.EnrolmentKeepsKeys`, `KeysDistinctExactly`).
- A registered endpoint is bound to a live credential of its account. A request reads its
  credential before it registers, and the credential may be revoked in between
  (`Runs.RegisteredAfterRevocation`). It holds throughout a run exactly when every registration
  finds a live credential of the account bound to its endpoint (`Machines.RegisteredExactly`); one
  that does not comes from a request whose own credential was revoked since it was read
  (`Machines.StaleRegistration`). A revoked credential itself never comes back
  (`Machines.RevocationIsFinal`).

`dafny verify dfyconfig.toml` checks the whole project.

## Model

| member | source | states |
|---|---|---|
| Text.NormalizeCanonical | crates/devsite-server/src/theme.rs:509-511 | Normalized text has single spaces only, none at the ends, and normalizing it again changes nothing |
| Text.NormalizeBytes | crates/devsite-server/src/theme.rs:509-511 | Normalizing never makes a value longer in UTF-8 bytes |
| ValueGrammar.NormalizeExact | crates/devsite-server/src/theme.rs:509-511 | Normalizing gives the words of a text with one space between each two |
| ValueGrammar.NumberExact | crates/devsite-server/src/theme.rs:378-385 | A number is one to eight digits, one of which may be a dot that is not alone |
| ValueGrammar.LengthExact | crates/devsite-server/src/theme.rs:364-376 | A length is `0`, or a number and one of the ten units |
| ValueGrammar.FlatColorExact | crates/devsite-server/src/theme.rs:342-360 | A flat colour is a keyword, a hexadecimal colour of 3, 4, 6 or 8 digits, a named colour, or one of five functions of at most four plain components |
| ValueGrammar.ColorExact | crates/devsite-server/src/theme.rs:296-362 | A colour is a flat one or `light-dark` of two, in any case |
| Scanner.StripComments | crates/devsite-server/src/theme.rs:414-461 | The comment-stripping loop computes `Strip`, including both ways of failing |
| Scanner.StripIsProjection | crates/devsite-server/src/theme.rs:414-461 | Stripped text closes every quote, has no comment outside quotes, and is left alone by stripping |
| Scanner.StripReplacesComment | crates/devsite-server/src/theme.rs:414-461 | The first comment outside quotes becomes one space and stripping goes on after it; text before it is kept |
| Scanner.StripCases | crates/devsite-server/src/theme.rs:414-461 | Every text is stripped in one of four ways: left alone, refused for an open quote, refused for an open comment, or its first comment replaced and the rest stripped |
| Scanner.SplitDeclarations | crates/devsite-server/src/theme.rs:463-486 | The splitting loop computes `Split` |
| Scanner.SplitJoin | crates/devsite-server/src/theme.rs:463-486 | The chunks with semicolons between them are the source, for every source |
| Scanner.SplitChunks | crates/devsite-server/src/theme.rs:463-486 | Every chunk of a balanced source opens and closes outside quotes and has no semicolon there |
| Scanner.FindOutsideQuotes | crates/devsite-server/src/theme.rs:488-507 | The search loop computes `FindOutside` |
| Scanner.FindOutsideMeaning | crates/devsite-server/src/theme.rs:488-507 | The search finds nothing exactly when no wanted character stands where the scan is outside quotes |
| Scanner.ScannersAgree | crates/devsite-server/src/theme.rs:414-507 | At every position of every chunk, a scan that starts at the chunk is in the quote state of the scan of the whole source |
| Values.SplitPair | crates/devsite-server/src/theme.rs:315-337 | The loop with a byte-wide depth counter computes `SplitColorPair` |
| Values.ColorGrammarExact | crates/devsite-server/src/theme.rs:296-362 | The depth-counting splitter accepts exactly a flat colour, or `light-dark` of two flat colours |
| Values.PairUnique | crates/devsite-server/src/theme.rs:315-337 | A `light-dark` value is a pair of colours in one way only |
| Values.DepthNeverOverflows | crates/devsite-server/src/theme.rs:315-337 | Within the value limit the depth counter of one byte answers as an unbounded one would |
| Values.ColorAlphabet | crates/devsite-server/src/theme.rs:296-362 | An accepted colour uses only ASCII letters, digits and `#%.,/()+- ` |
| FolderNames.ParseFolderNames | crates/devsite-server/src/theme.rs:387-412 | The reading and checking of a folder list computes `CanonicalList` |
| FolderNames.CheckNames | crates/devsite-server/src/theme.rs:393-403 | The loop with its set of seen names accepts exactly valid, distinct names |
| FolderNames.ReadArrayOfRender | crates/devsite-server/src/theme.rs:387-412 | A JSON list written from valid names reads back as those names, with any quotes and backslashes in them |
| FolderNames.CanonicalListFixed | crates/devsite-server/src/theme.rs:387-412 | Canonical folder lists are fixed points |
| FolderNames.RenderedInert | crates/devsite-server/src/theme.rs:405-411 | No scanner reacts to anything inside a written folder list |
| FolderNames.CanonicalListBytes | crates/devsite-server/src/theme.rs:387-412 | A canonical folder list is longer than its source by at most one byte a comma |
| FolderGrammar.ListExact | crates/devsite-server/src/theme.rs:387-388 | A folder list is read as some names exactly when it is a JSON list of strings that denote them, with every escape and surrogate pair |
| FolderGrammar.CanonicalListExact | crates/devsite-server/src/theme.rs:387-412 | It is accepted exactly when those are one to 64 distinct trimmed names of at most 40 characters without control characters |
| FolderNames.EscapeExact | crates/devsite-server/src/theme.rs:405-411 | A name is written character by character, with a backslash before a quotation mark or backslash only |
| FolderNames.RenderExact | crates/devsite-server/src/theme.rs:405-411 | A list is written as quoted names with a comma and a space between each two |
| Theme.ParseTheme | crates/devsite-server/src/theme.rs:155-210 | The parsing loop computes `Parse`, with the same errors |
| ThemeGrammar.ValueExact | crates/devsite-server/src/theme.rs:256-279 | Each kind of property takes exactly the values of its grammar, in canonical form |
| ThemeGrammar.ChunkExact | crates/devsite-server/src/theme.rs:163-201 | A chunk is read as a declaration exactly when it is a known name, a colon and a value of its kind, with nothing forbidden outside quotes |
| ThemeGrammar.ChunkErrors | crates/devsite-server/src/theme.rs:165-183 | The forbidden character reported is the first one outside quotes; then `!`; then a missing colon |
| ThemeGrammar.SideErrors | crates/devsite-server/src/theme.rs:183-195 | A missing value and an unknown property are reported exactly when they are the first thing wrong |
| ThemeGrammar.ValueErrors | crates/devsite-server/src/theme.rs:197-201 | A value is refused exactly when the grammar of its property gives none |
| ThemeGrammar.ForbiddenExact | crates/devsite-server/src/theme.rs:168-183 | The characters that may not stand outside quotes |
| ThemeGrammar.ParseExact | crates/devsite-server/src/theme.rs:155-210 | A source is read exactly when each chunk is blank or assigns something; it declares exactly what the last chunk to assign a property assigns; otherwise the error is that of the first bad chunk |
| Theme.CanonicalFixed | crates/devsite-server/src/theme.rs:256-279 | Canonicalizing is a projection for every kind of value; a folder list that outgrew its limit is the one exception |
| Theme.RoundTrip | crates/devsite-server/src/theme.rs:155-218 | Whatever is read, its canonical text is read as the same declarations exactly when it is within the two length limits |
| Theme.CanonicalTextIsStable | crates/devsite-server/src/theme.rs:155-218 | Within the limits, writing what was read and reading it again is stable |
| Theme.CssLines | crates/devsite-server/src/theme.rs:212-218 | Canonical text is a line for each declaration: property, colon, space, value, semicolon |
| ThemeTable.ServerTextCanBeRefused | crates/devsite-server/src/theme.rs:68-149 | The server's own table has an accepted text whose canonical text it refuses |
| ThemeTable.TableOk | crates/devsite-server/src/theme.rs:68-149 | The server's property table satisfies what the theorems ask of a table |
| Theme.ParseCollapses | crates/devsite-server/src/theme.rs:163-210 | Parsing gives one declaration per assigned property, in order of first assignment, with the value assigned last |
| Theme.CanonicalGrowth | crates/devsite-server/src/theme.rs:155-218 | Canonical text has at most two bytes a declaration, one byte a folder comma and one byte more than its source |
| Theme.AcceptedIsSafe | crates/devsite-server/src/theme.rs:190-201 | Every declaration names a known property, and every `--pico-` value stays in the safe alphabet |
| Layout.StoredNamesAreRead | crates/devsite-server/src/api.rs:1803-1819 | The folder names a page reads from a stored presentation are the accepted ones, distinct and valid |
| Layout.ValueOfExact | crates/devsite-server/src/api.rs:1803-1809 | A property of an accepted presentation has exactly the declared value |
| Layout.Arrange | crates/devsite-server/src/api.rs:1822-1894 | The three grouping loops give the loose entries and one group for each folder of `FolderOrder` |
| Layout.ArrangeProfile | crates/devsite-server/src/api.rs:1803-1894 | A page is arranged by the layout read from its stored presentation |
| Layout.PageFollowsText | crates/devsite-server/src/api.rs:1803-1894 | Accepted text determines the page: the folders with entries in the accepted order, then the others by first appearance; a group is closed only if the text closes folders and does not name it open |
| Layout.FoldersInOrder | crates/devsite-server/src/api.rs:1844-1850 | Folders are distinct; declared ones come first in declared order, then the others by first appearance |
| Layout.FoldersComplete | crates/devsite-server/src/api.rs:1844-1850 | The folders of a page are exactly the folders of its entries |
| Layout.EntriesConserved | crates/devsite-server/src/api.rs:1832-1850 | The loose entries followed by the groups are a permutation of all entries |
| Layout.ItemsStable | crates/devsite-server/src/api.rs:1832-1842 | Entries of a folder keep their order, and none is missing |
| Layout.LooseStable | crates/devsite-server/src/api.rs:1832-1842 | The loose entries are exactly those without a folder, in their order |
| Database.Db.CreateResource | crates/devsite-server/src/db.rs:692-753 | Updates the resource with this owner, name and kind or inserts one; a new URL sends accepted recipients back to pending |
| Database.Db.SetShares | crates/devsite-server/src/db.rs:823-865 | The loops that remove and invite leave exactly the named recipients, each with the decision it had |
| Database.Db.AcceptShare | crates/devsite-server/src/db.rs:961-976 | Moves a pending invitation, and nothing else, to the shares |
| Database.Db.DeclineShare | crates/devsite-server/src/db.rs:978-999 | An accepted or pending recipient becomes declined; nothing else changes |
| Database.Db.DeleteResource | crates/devsite-server/src/db.rs:876-882 | Deletes only the owner's own resource, with every row that refers to it |
| Database.Db.ShareRecipients | crates/devsite-server/src/db.rs:896-923 | Lists each recipient with a handle once, with its status, in the order of handles without regard to case |
| Database.Db.ConsumeConnectionTicket | crates/devsite-server/src/db.rs:1083-1105 | Takes an unexpired ticket out, and reports what it was for |
| Database.Db.CreateBrokerTunnelSession | crates/devsite-server/src/db.rs:1136-1166 | Inserts unless the request id or hash is taken or the credential is gone; expired sessions go in every case |
| Database.Db.ActiveBrokerGrantCount | crates/devsite-server/src/db.rs:1168-1178 | Counts the unexpired sessions of a credential |
| Database.Db.TunnelSession | crates/devsite-server/src/db.rs:1180-1214 | Finds exactly the unexpired session with a hash |
| Database.Db.MachineAuthentication | crates/devsite-server/src/db.rs:520-555 | Finds an enrolled credential by its hash |
| Database.Db.MachineEnrollment | crates/devsite-server/src/db.rs:559-570 | Finds an unconsumed enrolment ticket by its hash |
| Database.Db.EnrollMachine | crates/devsite-server/src/db.rs:574-596 | Rotates the hash and binds the endpoint under the guards of the old row and the unique index, telling the three outcomes apart |
| Database.Db.RevokeMachineCredential | crates/devsite-server/src/db.rs:636-657 | Removes a credential, its sessions and the registration of its endpoint |
| Sharing.ThreeWayAgreement | crates/devsite-server/src/policy.rs:42-55 | Under the invariant, policy, accessible services and authorization snapshot name the same viewers of every service |
| Sharing.SnapshotIsOfOwnServices | crates/devsite-server/src/db.rs:1254-1278 | A snapshot names exactly who may see the owner's own services |
| Sharing.ViewExact | crates/devsite-server/src/policy.rs:42-55 | Everybody sees what is public, an owner everything, an account what is shared with it |
| Sharing.ClaimExact | crates/devsite-server/src/api.rs:631-637 | A handle is claimed exactly by an existing account when no other has it |
| Sharing.SignInExact | crates/devsite-server/src/db.rs:351-378 | Signing in makes an account without a handle, once |
| Sharing.AgreementExact | crates/devsite-server/src/db.rs:794-815 | In any tables, the three agree on a service for every account exactly when it is not public and, if private, only its owner can hold a share of it |
| Sharing.PutKeepsInvExactly | crates/devsite-server/src/api.rs:707-760 | What each check of a request is for: applying keeps the invariant exactly when viewers are of a shared resource, are not the owner and have handles, a service is neither public nor has a URL, and a link has one |
| Sharing.SetSharesKeepsInvExactly | crates/devsite-server/src/api.rs:1096-1125 | Replacing a share list keeps the invariant exactly when the checks on the named accounts pass |
| Sharing.UncheckedViewerReaches | crates/devsite-server/src/api.rs:721-728 | Without the check that only shared resources name viewers, one invited to a private service who accepts is listed for it while the policy hides it |
| Sharing.PutStatus | crates/devsite-server/src/db.rs:692-865 | Naming a resource's state moves each recipient by `NextStatus`, and no other resource |
| Sharing.StatusDetermines | crates/devsite-server/src/db.rs:823-865 | The two recipient tables are determined by the statuses |
| Requests.HandleExact | crates/devsite-server/src/auth.rs:64-86 | A text gives a handle exactly when, trimmed and without `@`s in front, it is one but for case: 2 to 32 letters, digits, `-` and `_`, not `-` or `_` first, not reserved |
| Requests.HandleFixed | crates/devsite-server/src/auth.rs:64-86 | A handle is accepted as it is |
| Requests.ResolveShareAccounts | crates/devsite-server/src/api.rs:976-1006 | The loop over handles computes `ResolveShares`: in order, once each, and every error |
| ShareLists.ResolveExact | crates/devsite-server/src/api.rs:976-1006 | A list is taken exactly when it has at most 25 texts that each name an account other than the owner; it gives exactly those, once each, in order of first naming |
| ShareLists.PutResourceRecipients | crates/devsite-server/src/api.rs:643-679 | After a request the recipients of its resource are exactly the accounts its list names |
| ShareLists.PutSharesRecipients | crates/devsite-server/src/api.rs:1096-1125 | After a share list is replaced its recipients are exactly the accounts it names |
| ShareLists.PutSharesExact | crates/devsite-server/src/api.rs:1096-1125 | A share list is replaced exactly by the owner, for nobody unless the resource is shared; each refusal has its reason |
| ShareLists.PrepareExact | crates/devsite-server/src/api.rs:707-790 | A request passes exactly when it is acceptable: name, kind, visibility, URL, folder, share list and the limit of 100 |
| Requests.PrepareOk | crates/devsite-server/src/api.rs:707-790 | A request that passes names no owner as viewer, no viewers unless shared, no public service and no service with a URL |
| Requests.PutResourceKeepsInv | crates/devsite-server/src/api.rs:643-679 | Applying a request keeps the sharing invariant |
| Requests.PutSharesKeepsInv | crates/devsite-server/src/api.rs:1096-1125 | Replacing a share list keeps the sharing invariant |
| Plan.BuildResourcePlan | crates/devsite-server/src/api.rs:792-916 | The loops over fields, rows, handles and effects compute `BuildPlan` |
| Plan.FieldsExact | crates/devsite-server/src/api.rs:792-916 | The field changes of a plan are the differences of the resource before and after the apply |
| Plan.RecipientsExact | crates/devsite-server/src/api.rs:792-916 | The recipient changes of a plan are the differences of every account's status before and after |
| Plan.EffectsExact | crates/devsite-server/src/api.rs:792-916 | Each effect lists exactly the accounts that make its move |
| Plan.LossesExact | crates/devsite-server/src/api.rs:792-916 | The re-approval and revoked handles together are exactly the accepted viewers who lose access |
| Plan.ChangesNameAccounts | crates/devsite-server/src/api.rs:792-916 | Every recipient change names the handle of an account |
| Plan.ListedOnce | crates/devsite-server/src/api.rs:792-916 | No field, recipient or effect is in a plan twice, and no handle twice under one effect |
| Plan.PlanUnique | crates/devsite-server/src/api.rs:707-916 | The same request against the same tables has one plan, whichever way its rows are read |
| Plan.OperationExact | crates/devsite-server/src/api.rs:792-916 | `create` for a new resource, and for an existing one `noop` exactly when the apply changes no table |
| Plan.PlanExact | crates/devsite-server/src/api.rs:643-916 | For every plan the server may give, its operation and every effect are what the apply then does |
| Handlers.PrepareResource | crates/devsite-server/src/api.rs:707-790 | Preparing a request gives the checked request and its plan, or the error of the check |
| Handlers.CreateResource | crates/devsite-server/src/api.rs:643-679 | The request does exactly what its plan was computed from, or fails and changes nothing |
| Handlers.SetResourceShares | crates/devsite-server/src/api.rs:1096-1125 | Only the owner, only a shared resource; the share list becomes the named accounts |
| Handlers.UpdateShareInvitation | crates/devsite-server/src/api.rs:1182-1209 | Accepts or declines when there is something to, reports the owner, and otherwise changes nothing |
| Reachable.TraceInv | crates/devsite-server/src/api.rs:643-1209 | Every reachable state satisfies the sharing invariant, and everything in its tables was drawn before |
| Reachable.AccessAgrees | crates/devsite-server/src/db.rs:794-815 | In every reachable state policy, accessible services and snapshot agree |
| Reachable.PlansPredictSteps | crates/devsite-server/src/api.rs:643-679 | In every run an apply right after a plan makes the moves the plan lists, and none when it says `noop` |
| Consent.ShareConsent | crates/devsite-server/src/db.rs:692-999 | Every request moves every recipient's status exactly as `StatusAfter` says |
| Consent.AcceptedUntilWithdrawn | crates/devsite-server/src/db.rs:823-999 | An accepted share stands after a request exactly when the request does not withdraw it |
| Consent.OwnersNeverAccept | crates/devsite-server/src/db.rs:692-882 | No step of an owner adds an accepted viewer |
| Consent.AcceptedByViewer | crates/devsite-server/src/db.rs:961-999 | Who is accepted accepted it themselves, after the last URL change, omission and decline, and the URL is the one they accepted |
| Consent.DeclineStands | crates/devsite-server/src/db.rs:823-999 | A decline ends only when the owner leaves that viewer out |
| SingleUse.TicketUsedOnce | crates/devsite-server/src/db.rs:1083-1105 | In every run a connection ticket is used by at most one step |
| SingleUse.EnrolmentBindsOnce | crates/devsite-server/src/api.rs:1346-1392 | Although look-up and binding are separate steps, an enrolment ticket binds at most once |
| SingleUse.TicketNeverAuthenticates | crates/devsite-server/src/db.rs:559-596 | After it has bound an endpoint, an enrolment ticket authenticates no request |
| SingleUse.EndpointFixed | crates/devsite-server/src/db.rs:574-596 | A bound endpoint never changes while its row lives |
| SingleUse.EndpointsUnique | crates/devsite-server/src/db.rs:148-149 | No two credentials share the text of an endpoint id, in any reachable state |
| Access.CreateConnectionTicket | crates/devsite-server/src/api.rs:2246-2286 | A ticket only for a service the viewer may reach, for two minutes |
| Access.RedeemConnectionTicket | crates/devsite-server/src/api.rs:2291-2346 | Redeeming uses the ticket up in every case and opens a session only while the service is within reach |
| Access.ClearCapability | crates/devsite-server/src/api.rs:2354-2402 | The check under the lock, with each of its refusals |
| Access.IssueServiceGrant | crates/devsite-server/src/api.rs:2044-2110 | Every check in order, then the insert with its three outcomes |
| Entitlement.TicketExact | crates/devsite-server/src/api.rs:2246-2286 | A ticket is given exactly for an accessible service; expired tickets go |
| Entitlement.RedeemExact | crates/devsite-server/src/api.rs:2291-2346 | A ticket opens a session exactly while it is live and its service still accessible, and is used up either way |
| Entitlement.ClearExact | crates/devsite-server/src/api.rs:2354-2402 | A clearance is given exactly to a live session whose service is accessible to its viewer; each refusal has its reason |
| Entitlement.CapabilityExact | crates/devsite-server/src/api.rs:2354-2430 | A grant is given exactly when the session connects, and is the one of that viewer, service, key and daemon, for 180 seconds |
| Entitlement.NamedExact | crates/devsite-server/src/api.rs:2175-2190 | The keyword has to stand in the service's name, or in the handle of an owner other than the broker |
| Entitlement.ValidateExact | crates/devsite-server/src/api.rs:2126-2207 | A grant request validates exactly when it is well formed, timely, signed by both, and for an accessible service so named |
| Entitlement.ValidateErrors | crates/devsite-server/src/api.rs:2126-2207 | Otherwise the error is that of the first failed check |
| Entitlement.PlanExact | crates/devsite-server/src/api.rs:2021-2043 | A plan is given exactly to a machine with the scope for a request that validates |
| Entitlement.CheckExact | crates/devsite-server/src/api.rs:2044-2080 | An issue passes exactly with the scope, a valid request, its plan signed by the server, and fewer than 32 live sessions |
| Entitlement.InsertExact | crates/devsite-server/src/db.rs:1136-1166 | A passed issue is inserted exactly when its credential exists and neither token nor request id is in use; only expired sessions go |
| BrokerProgress.BrokeredRequesterIsServed | crates/devsite-server/src/api.rs:2021-2110 | From every state of every run, a machine with a right request comes to the session for its requester |
| Sessions.SessionStartsWithTicket | crates/devsite-server/src/api.rs:2246-2346 | An unbrokered session was opened with a ticket at most two minutes old, by a viewer within reach both times, for the key presented |
| Sessions.SessionLasts | crates/devsite-server/src/db.rs:1107-1221 | A live session outlasts every step but its end, its resource's deletion and its issuer's revocation |
| Sessions.TicketLasts | crates/devsite-server/src/db.rs:1054-1105 | An unexpired ticket outlasts every step but its redemption and its resource's deletion |
| Sessions.ConnectsExactly | crates/devsite-server/src/api.rs:2354-2430 | In every reachable state a session's holder is given a grant exactly while it is live, its service accessible and the owner's daemon registered |
| Brokered.BrokeredOrigin | crates/devsite-server/src/api.rs:2021-2095 | A brokered session was planned before with the same eight claims by the same credential, and when issued was in time, in scope, matched its keyword and was within its issuer's reach |
| Brokered.ValidGrantIsSigned | crates/devsite-server/src/api.rs:2126-2207 | A grant that validates was signed by the requester's key and by the broker's key, statement for statement |
| Brokered.BrokeredBounds | crates/devsite-server/src/db.rs:1136-1178 | In every reachable state at most 32 unexpired sessions a credential, no two sessions with one request id, none of a revoked credential |
| Machines.RunCredentialsProved | crates/devsite-server/src/api.rs:1346-1392 | Every bound endpoint's key has signed its endpoint proof |
| Machines.RegistrationOrigin | crates/devsite-server/src/api.rs:1281-1302 | A registered endpoint was registered by a machine of that account bound to it, with a signed proof |
| Machines.RevocationIsFinal | crates/devsite-server/src/db.rs:636-657 | In every state after a revocation the credential is gone, nothing it issued is there, and no token authenticates as it |
| Machines.RevocationExact | crates/devsite-server/src/db.rs:636-657 | A revocation takes exactly the credential, its sessions and the registration of its endpoint for that account |
| Machines.EnrolmentExact | crates/devsite-server/src/db.rs:574-596 | An enrolment binds exactly the unbound row that was looked up, to an endpoint nobody has, and the new token authenticates |
| Machines.AuthenticationExact | crates/devsite-server/src/db.rs:520-555 | A bound credential authenticates by its own token and no other |
| Machines.CredentialExact | crates/devsite-server/src/db.rs:492-516 | A credential is issued exactly to an account with fewer than ten, for the one scope or none |
| Machines.RegisteredExactly | crates/devsite-server/src/api.rs:1281-1302 | In every run, registered endpoints are bound to live credentials of their accounts throughout exactly when every registration finds one |
| Machines.UnrevokedRegistered | crates/devsite-server/src/api.rs:1281-1302 | They are in every state of a run in which no registration acts on a credential revoked since it was read |
| Machines.StaleRegistration | crates/devsite-server/src/api.rs:1281-1302 | A registration that finds no live credential acts on one that was revoked after its request had read it |
| Runs.RegisteredAfterRevocation | crates/devsite-server/src/api.rs:1281-1302 | A run in which a credential is read, revoked, and then its endpoint registered |
| EndpointKeys.EnrolmentKeepsKeys | crates/devsite-server/src/api.rs:1346-1392 | In every run, an enrolment that binds keeps the bound keys distinct exactly when no bound text equals the presented one trimmed and in lower case |
| EndpointKeys.KeysDistinctExactly | crates/devsite-server/src/db.rs:574-596 | Over whole runs, the bound keys are distinct throughout exactly when every binding was of a text unlike the bound ones |
| Runs.OneKeyBoundTwice | crates/devsite-server/src/api.rs:1346-1392 | A run in which a second enrolment presents the bound id and a space, passes every check, and binds the key again |
| Limits.LimitsHold | crates/devsite-server/src/api.rs:707-1006 | Never more than 100 resources an owner, 25 recipients a resource or 10 credentials an account |
| Statements.MachineEndpointProofMessage | crates/devsite-proto/src/lib.rs:15-19 | The encoder that extends a message computes `Encode` |
| Statements.ServiceGrantRequestMessage | crates/devsite-proto/src/lib.rs:23-35 | The encoder that extends a message computes `Encode` |
| Statements.ServiceGrantIssueMessage | crates/devsite-proto/src/lib.rs:39-51 | The encoder that extends a message computes `Encode` |
| Statements.EncodeInjective | crates/devsite-proto/src/lib.rs:15-56 | Bytes determine the statement: each encoder is injective in every field, and no two kinds share a message |
| Statements.EncodeExact | crates/devsite-proto/src/lib.rs:15-56 | A message is exactly its layout: domain and zero byte, fields behind eight-byte lengths, and an eight-byte time, most significant byte first |
| Endpoints.ParseHexLower | crates/devsite-server/src/api.rs:2525-2530 | A key is read back from its lower-case hexadecimal form |
| Endpoints.ParseExact | crates/devsite-server/src/api.rs:2525-2530 | An endpoint id is exactly 64 hexadecimal digits of either case with whitespace around, and names the key of those bytes |
| Endpoints.SameKeyExact | crates/devsite-server/src/api.rs:2525-2530 | Two accepted texts name one key exactly when they are equal trimmed and in lower case |
| Capability.IssuedWindow | crates/devsite-proto/src/capability.rs:82-134 | A grant verifies exactly for its daemon and peer, from 30 seconds before its issue to its last second |
| Replay.ReplayGuard.Admit | crates/devsite-daemon/src/verify.rs:40-49 | Prunes, then refuses a remembered nonce or remembers a new one |
| Replay.Authorize | crates/devsite-daemon/src/verify.rs:64-95 | The checks in order; a request denied before the guard leaves the guard unchanged |
| Replay.DecideExact | crates/devsite-daemon/src/verify.rs:64-95 | A request is accepted exactly when its grant is signed, for this daemon and peer, in time, for a hosted resource and not remembered; each denial has its reason |
| Replay.AfterExact | crates/devsite-daemon/src/verify.rs:40-95 | Afterwards the guard remembers exactly what has not expired and the accepted nonce |
| Replay.VerdictExact | crates/devsite-daemon/src/verify.rs:40-49 | For readings in any order, the pruning guard refuses a call exactly when an earlier admitted call of its nonce has an expiry above every reading made after it |
| Replay.RefinesBeforeExpiry | crates/devsite-daemon/src/verify.rs:40-49 | In any order, as long as no reading has come to the expiry of its nonce, a call has the verdict of a guard that never forgets |
| Replay.PruningRefines | crates/devsite-daemon/src/verify.rs:40-49 | In any order, the guard agrees with one that never forgets exactly on first uses and on repeats with no reading since at or after the expiry; a call no later reading has overtaken is admitted exactly when it is a first use or that late |
| Replay.AdmittedOnce | crates/devsite-daemon/src/verify.rs:40-49 | In any order, two admissions of one nonce have a reading between them at or after its expiry |
| Replay.LastSecondIsAdmittedAgain | crates/devsite-daemon/src/verify.rs:40-95 | Once accepted, a request is accepted again, at that time or later, exactly in the second of its grant's expiry |
| EndToEnd.GrantIsSound | crates/devsite-server/src/api.rs:2354-2430 | A signed grant was minted after a check that saw a live session of that key, the viewer's right and the daemon's registration |
| EndToEnd.AcceptedIsEntitled | crates/devsite-daemon/src/lib.rs:240-254 | End to end: an accepted request rests on such a check, made not after the daemon read its clock and at most 180 seconds before |
| EndToEnd.AcceptedOnce | crates/devsite-daemon/src/verify.rs:73-94 | However the daemon's handlers interleave, between two acceptances of a grant some request gives the guard a reading at or after its expiry; unless that one overtook the second acceptance, it is the grant's last second |
| GrantRuns.GrantAcceptedTwice | crates/devsite-daemon/src/verify.rs:40-95 | A run from the empty database in which one grant is accepted in the second before its expiry and in the second of it |
| Streams.Daemon.CancelWhere | crates/devsite-daemon/src/lib.rs:145-157 | The removal loop leaves exactly the streams that are not denied, and counts the others |
| Streams.Daemon.ReplaceResources | crates/devsite-daemon/src/lib.rs:112-130 | An unchanged list does nothing; a new one closes the streams of resources not in it |
| Streams.Daemon.ReplaceAuthorizations | crates/devsite-daemon/src/lib.rs:134-137 | Leaves exactly the streams that the snapshot allows |
| Streams.Daemon.RevokeAllActive | crates/devsite-daemon/src/lib.rs:140-142 | Leaves no stream, and counts all |
| Streams.AuthorizationSync.Step | crates/devsite-cli/src/main.rs:2898-2945 | One turn of the refresh loop: a snapshot replaces, a failure fifteen seconds after the last success closes everything |
| Streams.RevocationReachesOldStreams | crates/devsite-cli/src/main.rs:2898-2945 | In every interleaving, open streams inserted before the last refresh are in its snapshot |
| Streams.TickExact | crates/devsite-cli/src/main.rs:2898-2945 | A tick closes exactly the streams it does not spare: those outside a good snapshot, or all when a poll fails fifteen seconds after the last success |
| Streams.OpenUntilEnded | crates/devsite-daemon/src/lib.rs:112-157 | In every run a stream stays open and unchanged exactly until its handler finishes, a hosted list lacks its resource, or a tick does not spare it |
| Streams.TickCloses | crates/devsite-cli/src/main.rs:2898-2945 | Whatever is open at any time after a tick was inserted after it or spared by it; a good tick spares what is in its snapshot, a failed one everything before the lease is stale and nothing after |
| Streams.LateRemoveIsHarmless | crates/devsite-daemon/src/lib.rs:301-333 | Ids are never reused, so a late remove takes out no other handler's stream |
| Revocation.RefreshCarriesRevocation | crates/devsite-cli/src/main.rs:2898-2945 | In every joint run, streams older than the last refresh are for the owner's services and for viewers who could see them in the state the control plane answered it from |
| Revocation.RevokedByTick | crates/devsite-cli/src/main.rs:2898-2945 | The lease: after a turn of the loop that ends fifteen seconds or more after it was idle, whatever failed in between, the open streams of a viewer who could not see the resource all that time were inserted since |
| Revocation.RevokedInTime | crates/devsite-cli/src/main.rs:2898-2945 | If turns end at least every `period` seconds, no stream stays open for longer than three periods and fifteen seconds of its viewer not seeing its resource |
| Revocation.ClosedInTime | crates/devsite-daemon/src/lib.rs:240-333 | From the tables to the wire: a stream is open only within 180 seconds, its handler's delay, three periods of the loop and the fifteen seconds of the lease of the time its viewer could last see the resource |
| Progress.InvitedViewerIsGranted | crates/devsite-server/src/api.rs:1182-2430 | From every state of every run, an invited viewer who accepts comes to a signed grant |
| Progress.InvitedViewerIsServed | crates/devsite-daemon/src/lib.rs:200-300 | With the daemon running and hosting the service, the viewer comes on to an open stream |
| RateLimiting.RateLimits.Check | crates/devsite-server/src/api.rs:92-115 | Prunes above the threshold, opens or restarts the window, and counts or refuses |
| RateLimiting.PruningChangesNothing | crates/devsite-server/src/api.rs:92-115 | Over every run with time not going back, dropping windows changes no verdict |
| RateLimiting.BurstBound | crates/devsite-server/src/api.rs:92-115 | In no sixty seconds are more than twice the limit let through for an account and class |
| RateLimiting.RefusedIsFull | crates/devsite-server/src/api.rs:92-115 | A request is refused only when the limit has been let through in the sixty seconds that end with it |
| RateLimiting.LimitExact | crates/devsite-server/src/api.rs:71-79 | The limits of the four classes |
| ProfileStream.NoLostUpdate | crates/devsite-server/src/api.rs:1712-1763 | Whatever the interleaving and however far it lagged, a drained reader's last render is after every change announced for its profile |
| ProfileStream.CommittedIsAnnounced | crates/devsite-server/src/api.rs:50-60 | Every committed change with accounts is announced to exactly those, once its writer has finished |
| ProfileStream.QuietIsCurrent | crates/devsite-server/src/api.rs:1712-1763 | With no writer left, a drained reader has rendered after every committed change of its profile |
| ProfileStream.ReaderDrains | crates/devsite-server/src/api.rs:1720-1745 | A reader catches up by its own steps alone |
| ProfileStream.ReceiveExact | crates/devsite-server/src/api.rs:1724-1730 | An announcement makes a reader render exactly when it names the profile or the reader lags |
| ProfileStream.AnnouncedWasCommitted | crates/devsite-server/src/api.rs:50-60 | Every announcement is of a committed change, with the accounts named for it |
| ProfileStream.SnapshotFirstLosesUpdates | crates/devsite-server/src/api.rs:1717-1719 | A run of a reader that takes its snapshot before it subscribes, after which it is drained and out of date |

## Left out

- HTTP: routing, headers, cookies, server-sent event encoding, HTML and its escaping, the web client.
- Ed25519, SHA-256, random generation, postcard, base64, base32 and URL parsing are parameters (`Libraries`) or assumed fresh; that serialized plans and grants do not decode as each other is part of `Capability.Payload`.
- Sign-in: the OIDC exchange, browser sessions and which requests a machine credential may make; the calling account is a parameter of each request.
- SQLite and the migrations: tables are maps and sets with the keys, uniqueness and cascades of the schema; columns that no modelled decision reads (times of creation and use, credential names) are not there.
- Rate limiting inside runs: `check_rate` is not a step of the control plane's runs, where any request may be made at any time.
- The table of colour names, the suggestion of a similar property and the wording of errors.
- The Unicode lower case of search keywords is a parameter; handles are compared in ASCII as the database does.
- Times and counters are unbounded: an expiry past the last 64-bit second and a stream id past the last 64-bit number are not modelled; `VerifyFor` and the grant checks do saturate as the source does.
- Iroh, TCP copying, relays, the native client and the wire framing; the daemon's handling of a malformed frame and of an upstream that refuses.
- All commands of the CLI but the authorization loop; a listing that does not parse, which ends that loop and the daemon with it, is not a step.
- Which accounts a request chooses to announce: `ProfileStream` is about the accounts that an announcement names.
- Profile pages other than their grouping: which entries a viewer sees, private profiles, entry markup.
- BurstBound and PruningChangesNothing are for a clock that is not set back; the limiter reads it under its own lock.
- RevokedInTime: bounds the time by that between the ends of turns, as the loop's request has no time limit of its own.
- ClosedInTime: also takes the longest delay of a handler from reading the clock to inserting its stream, for the same reason: connecting upstream and answering the peer have no time limit.
- A daemon that is started again: its guard and its streams start empty, so a run is of one process.
- TicketUsedOnce: says nothing of tokens with equal hashes, since hashes stand for tokens.
