# Verified model of the signing portal's gateway

The gateway sits between a browser and the services that hold documents, envelopes and signatures. This project
models the logic of its own that is more than relaying, and proves what that logic promises:

- **Dashboard** (`Dashboard.dfy`, `DashboardRows.dfy`, `DashboardTime.dfy`, `Timestamps.dfy`): three listings become one
  set of rows. The loops of the source are loops here, each proved equal to a filter or a fold; the lemmas say what
  those mean: which rows there are, that every chain has exactly one place and every document keeps a row, and that the
  row kept is the one that acted last.
- **Sign-in and sessions** (`FlowKey.dfy`, `Sessions.dfy`, `SessionStore.dfy`, `SignIn.dfy`, `SignInProofs.dfy`,
  `SessionProofs.dfy`, `SignInRuns.dfy`, `Admissions.dfy`, `TwoTabs.dfy`, `Logouts.dfy`, `Handlers.dfy`): the in-memory
  store is a class proved against the history of its operations. Requests, browsers, the clock and an Auth Service that may answer anything form a system of steps
  that interleave between any two store operations; the theorems hold in every run. The handlers are methods on the
  store, each shown to take exactly those steps.
- **Time-bounded memories** (`AnswerCache.dfy`, `OfferedFlows.dfy`) and the **verification gate** (`InflightGate.dfy`):
  classes proved against plain histories, and the requests that share them.
- **Envelope view and signing trigger** (`EnvelopeView.dfy`, `SigningTrigger.dfy`): what a viewer can learn, and which
  calls go out in which order with whose certificates.
- **String forms** (`FlowKey.dfy`, `ReturnUrls.dfy`, `MethodNames.dfy`): printers with the readers that undo them.

`Common.dfy` and `Text.dfy` hold what the others share.

Instants and durations are integers in nanoseconds. The clock, random values, the answers of other services, the
identity-key function, the display format of an instant and the hash are parameters. Random values are fresh, and the
hash (SHA-256) has 32 bytes and does not collide on the bindings in play. Texts are sequences of characters; ids in
return addresses are sequences of bytes.

Where the code and its comments differ, the model follows the code:

- `latestPerChain` is said to keep one row per document. It does where each envelope holds at most one document; an
  envelope with several can share one with another surviving row (`Dashboard.SharedDocumentHasTwoRows`,
  `Dashboard.OneRowExactly`).
- The dashboard is said to lose no chain. A document whose identifier is empty is matched by the subtraction and not by
  the live set, so its chain can lose its row (`Dashboard.EmptyIdLosesARow`, `Dashboard.RowLostExactly`).
- Two sign-ins started in two tabs are said both to finish. They do once the browser holds the first one's binding; of two
  first starts sent before either is answered, the first is lost (`TwoTabs.CrossedStartsLoseTheFirst`,
  `TwoTabs.FirstTabReturnsExactly`).
- A logout is said to invalidate the session. Another request in flight on it that has yet to ask for a token can put it
  back (`Logouts.LogoutCanBeUndone`, `Logouts.LogoutIsFinalExactly`).
- The cached answer is said never to cross users. That holds exactly among users whose subjects cannot share a key, such as
  subjects without a colon (`AnswerCache.SubjectsCollideExactly`, `AnswerCache.AnswersAreOwnExactly`).
- `signEnvelopeSlot` is said to send a redirect flow's captured certificate. An identity captured without one goes out
  with a certificate the request brings (`SigningTrigger.TogetherExactly`).
- `signingReturnOrigin` is said to need a scheme and a host. A configured base address is used as it stands, and one of only
  slashes suppresses the fallback (`ReturnUrls.OriginIsNotAsDocumented`, `ReturnUrls.OriginIsDocumentedExactly`).
- A token lifetime below -9223372036 seconds wraps round to a longer one (`Sessions.ReuseIsEarlyExactly`).

## Model

| member | source | states |
|---|---|---|
| `Dashboard.WithoutDestroyedChains` | routes/dashboard.go:117-155 | The loop keeps, in order, exactly the envelopes that are not terminal over documents none of which is live; over an empty chain listing it keeps all |
| `Dashboard.LatestPerChain` | routes/dashboard.go:223-246 | The two map loops keep, in order, the envelopes without documents and those that ended as the home of some document |
| `Dashboard.ActedLaterIsStrictTotalOrder` | routes/dashboard.go:251-257 | "Acted later" is irreflexive, asymmetric, transitive, and decides between any two envelopes with different ids |
| `Dashboard.HomeIsUnbeaten` | routes/dashboard.go:224-231 | A document has a home exactly if some envelope names it; the home names it and no envelope naming it acted later |
| `Dashboard.HomeIsLatest` | routes/dashboard.go:209-231 | With unique ids the home is the envelope that acted after all others naming the document |
| `Dashboard.SurvivesExactly` | routes/dashboard.go:209-246 | An envelope survives exactly if it has no documents or is the latest for one of them |
| `Dashboard.SurvivorsIgnoreOrder` | routes/dashboard.go:221-246 | Which envelopes survive, and how often, does not depend on the order of the listing |
| `Dashboard.EveryDocumentKeepsARow` | routes/dashboard.go:215-219 | Every document the input names is named by a survivor |
| `Dashboard.ReductionIsIdempotent` | routes/dashboard.go:223-246 | Reducing twice changes nothing more |
| `Dashboard.OneRowPerDocument` | routes/dashboard.go:209-213 | Where every envelope holds at most one document, no document has two rows |
| `Dashboard.OneRowExactly` | routes/dashboard.go:209-219 | A document has one row exactly if no other envelope naming it is the latest for any document |
| `Dashboard.SharedDocumentHasTwoRows` | routes/dashboard.go:215-219 | A pair of envelopes that share a document and both survive |
| `Dashboard.RetentionIndex` | routes/dashboard.go:173-186 | The map loop holds, under every non-empty root and head, the soonest retention instant of its chains |
| `Dashboard.WithRetention` | routes/dashboard.go:166-207 | Same rows, same order, each with the two-stage minimum in its retention field or unchanged |
| `Dashboard.RetainedIsDirectMinimum` | routes/dashboard.go:157-165 | The two-stage minimum is the minimum over all chains with a retention instant whose root or head the envelope names; without one the row is untouched, and no other field ever changes |
| `Dashboard.Compose` | routes/dashboard.go:70-104 | The whole composition: tasks as they came, the joined and reduced envelopes, the uncovered chains |
| `DashboardRows.EnvelopeRowsExactly` | routes/dashboard.go:94-98 | For unique ids, the envelope rows stand in the order of the listing, one for each position whose envelope's documents are not destroyed and which has none or was touched last for one of them among those not destroyed; each is its envelope with the soonest retention of the chains it names |
| `DashboardRows.ChainRowsExactly` | routes/dashboard.go:70-95 | The standalone rows stand in the order of the listing, one for each position whose root and head no envelope and no task names; the tasks are as they came |
| `DashboardRows.DestroyedExactly` | routes/dashboard.go:106-155 | The filter drops exactly the completed, declined, cancelled and expired envelopes that have documents, none of which is a non-empty root or head of a listing that is not empty |
| `DashboardRows.NoDocumentTwice` | routes/dashboard.go:209-213 | Where every envelope of the listing holds at most one document, no document has two rows on the dashboard |
| `Dashboard.EveryChainHasOnePlace` | routes/dashboard.go:11-18 | With non-empty document ids in envelopes, each chain is a standalone row nothing shown names, or it is not one and a shown task or surviving envelope names it |
| `Dashboard.RowLostExactly` | routes/dashboard.go:70-95 | A chain has no place exactly if an envelope names it, no task does, and every envelope naming it is terminal and names no listed identifier but the empty one; its root or head is then empty |
| `Dashboard.EmptyIdLosesARow` | routes/dashboard.go:122-132 | A listing with an empty document id in which a chain has no place |
| `Dashboard.StandaloneRowsKeepOrder` | routes/dashboard.go:85-91 | Standalone rows are the uncovered chains at increasing positions of the listing, each as often as it occurs there |
| `Dashboard.FilterThenReduceMatters` | routes/dashboard.go:95-95 | Reducing before filtering can leave nothing where filtering first leaves a row |
| `DashboardTime.SurvivorActedLast` | routes/dashboard.go:248-257 | Over well-formed timestamps of one width, a surviving envelope has a document for which no other envelope acted at a later instant |
| `Timestamps.TextOrderIsTimeOrder` | routes/dashboard.go:252-254 | For any two valid UTC timestamps the text order is the order of the instants, except exactly when both lie in one second and one has the other's fraction cut short |
| `Timestamps.FixedWidthTextOrder` | routes/dashboard.go:252-254 | Timestamps with one width of fraction are ordered as their instants are |
| `Timestamps.MixedWidthTextOrderFails` | routes/dashboard.go:252-254 | A later instant whose text is smaller |
| `Timestamps.EarlierFieldsEarlierSecond` | routes/dashboard.go:252-254 | Field-by-field order is calendar order, across months and leap years |
| `FlowKey.EncodingIsReadable` | session/session.go:26-30 | Unpadded base64url decodes to the bytes encoded, and has the expected length |
| `FlowKey.KeyIsInjective` | session/session.go:26-30 | A flow key names one state and one hash, whatever characters the state holds |
| `FlowKey.BindingIsKept` | routes/cookies.go:88-119 | The binding a sign-in start sets is recognised on return and kept by every later start; a valid one the browser sent is that binding |
| `FlowKey.BindingAcceptedExactly` | routes/cookies.go:107-119 | Exactly which cookie values are taken for a binding: 43 characters, all of the alphabet but for line breaks, and no lone character beyond whole groups |
| `Sessions.ReuseIsEarly` | routes/session.go:398-434 | For every lifetime: a token passes the reuse check less than its lifetime, as the 64-bit product gives it, minus 30 seconds after it was applied, both instants rounded to seconds |
| `Sessions.ReuseIsEarlyExactly` | routes/session.go:398-434 | The lifetimes for which that bound holds of the seconds the Auth Service named are exactly those from -9223372036 seconds up |
| `Sessions.ReuseIsNotLate` | routes/session.go:398-434 | A token is reused as long as its lifetime less 31 seconds; an empty one never |
| `Sessions.LifetimeExactly` | routes/session.go:428-434 | The lifetime as computed is the seconds named exactly from -9223372036 to 9223372036 |
| `Sessions.ShortTokensAreNotReused` | routes/session.go:25-25 | The tokens never reused once applied are exactly those whose lifetime, as computed, is 30 seconds or less; a lifetime of -9223372036 to 30 seconds is |
| `SessionStore.MemoryStore.constructor` | session/memory.go:30-38 | A new store holds nothing |
| `SessionStore.MemoryStore.PutFlow` | session/memory.go:40-51 | Parks the flow until the flow time to live has passed, touching nothing else |
| `SessionStore.MemoryStore.RemoveFlow` | session/memory.go:54-57 | Returns and removes what the history left parked under the key |
| `SessionStore.MemoryStore.TakeFlow` | session/memory.go:53-69 | Returns the flow parked under the key if the clock, read after the lock, has not passed its expiry; removes it either way |
| `SessionStore.MemoryStore.PutSession` | session/memory.go:71-82 | Stores or replaces the session with a fresh expiry |
| `SessionStore.MemoryStore.GetSession` | session/memory.go:84-99 | Returns the session the history left stored if the clock has not passed its expiry |
| `SessionStore.MemoryStore.DeleteSession` | session/memory.go:101-107 | Removes the session, absent or not |
| `SessionStore.StoredIsLastPut` | session/memory.go:71-107 | A stored session is exactly the last one put under its id with no put or deletion since |
| `SessionStore.FlowsAreTakenOnce` | session/memory.go:53-69 | Between two takes of one key that both succeed, a flow was parked under it, whenever each read the clock |
| `SessionStore.TakesLastParkedExactly` | session/memory.go:40-69 | A take gets exactly the last flow parked under the key and not taken since, up to and including the instant its time to live is over |
| `SessionStore.ReadsLastPutExactly` | session/memory.go:78-107 | A reader gets exactly the last session put under the id with no deletion since, up to and including the instant that put's time to live is over |
| `SignInProofs.StepKeepsStories` | routes/session.go:57-209 | Every step keeps: each sign-in's story is a prefix of started, claimed, taken, exchanged, opened, on the data it started with, and an unclaimed one has its flow parked |
| `SignInProofs.FoundIsOwn` | routes/session.go:172-186 | A return that finds a flow names the state and the binding it was parked with |
| `SignInRuns.SignInIsSingleUse` | routes/session.go:134-212 | In every run a sign-in is started, claimed, taken, exchanged and opened at most once each, in this order |
| `SignInRuns.SessionIsTheStarters` | routes/session.go:172-208 | A session opened by a sign-in carries the key its start parked, and the browser that completed it sent the starter's binding |
| `SignInRuns.ClaimCameFromReturn` | routes/session.go:134-186 | In every run, a sign-in is claimed only by a return that named the issuer, brought no error, a code and a state, and sent a valid binding |
| `SignInRuns.ParkedFlowStays` | routes/session.go:96-186 | Only a return that passes its checks under its own state and binding moves a parked flow |
| `SignInRuns.ParkedUntilOwnReturn` | routes/session.go:96-186 | Over any stretch of a run without its own return, a parked flow stays as it was |
| `SignInRuns.OwnReturnTakesTheFlow` | routes/session.go:172-186 | The first return under its own state and binding finds the flow, and takes it unless the clock has passed its expiry |
| `TwoTabs.BrowserKeepsBinding` | routes/cookies.go:84-105 | In every run, while a sign-in it was told of could be parked, a browser that holds the binding and sends its own cookie with every start keeps the binding and sends it |
| `TwoTabs.FirstReturnFinishes` | routes/session.go:172-186 | The first return of such a browser from such a sign-in finds the flow as it was parked, in time |
| `TwoTabs.TwoTabsBothReturn` | routes/cookies.go:84-105 | In every run, such a browser that starts a second sign-in while the first is parked and its cookie lives parks it under the same binding; when its answer comes in that time too, the first return from either finds its flow, in either order |
| `TwoTabs.FoundExactly` | routes/session.go:172-186 | A return finds an unclaimed flow exactly if it sends the binding the flow was parked under |
| `TwoTabs.FirstTabReturnsExactly` | routes/cookies.go:88-105 | With two sign-ins parked and the binding of the second in hand, the return from the second finds its flow, and that from the first does exactly if the second start sent the binding of the first |
| `TwoTabs.CrossedStartsLoseTheFirst` | routes/cookies.go:84-105 | A run in which two first starts of one browser are sent before either is answered, and the first tab finds nothing although its flow is parked and live |
| `SignInRuns.CookieOutlivesTheFlow` | routes/cookies.go:88-105 | For the whole seconds of an unclaimed flow's time to live, the browser told of it and holding its binding still sends it, passes the checks and finds the flow live |
| `TwoTabs.CookieFallsShort` | routes/cookies.go:95-102 | Where the time to live is not in whole seconds, a cookie set at once is gone while its flow still lives |
| `SessionProofs.StepKeepsSessions` | routes/session.go:235-434 | Every step keeps: each session value belongs to the identity its id was minted for, with a token and an expiry from one token response |
| `SignInRuns.OneIdentityPerSession` | routes/session.go:235-434 | All values ever stored under one session id have the same key, subject, anti-forgery token and capabilities |
| `SignInRuns.HeldSessionsHaveTheIdentity` | routes/middleware.go:40-62 | So do the values the store holds and the ones requests hold |
| `SignInRuns.TokenAndExpiryTogether` | routes/session.go:428-434 | A stored session's access token and expiry come from one token response |
| `SignInRuns.HandedOutTokensAreFresh` | routes/session.go:398-401 | A token handed out without a refresh was received less than its lifetime, as computed, minus 30 seconds before; for lifetimes named from -9223372036 seconds up, also less than the named lifetime minus 30 seconds, and it is more than 30 |
| `Logouts.ComesBackExactly` | routes/session.go:396-434 | A minted session that does not resolve, being gone or expired, resolves again in some continuation exactly if a request in flight is about to store it, or holds it, or has read it live and will be admitted, and has yet to ask for a token |
| `Logouts.LogoutIsFinalExactly` | routes/session.go:360-394 | A logout can be undone exactly if there is such another request in flight; another logout, or a request that has all the tokens it asks for, is none |
| `Logouts.LogoutIsFinal` | routes/session.go:389-391 | In every run, after a logout with no such other request, the session is never stored again and nothing in flight can bring it back |
| `Logouts.LogoutCanBeUndone` | routes/session.go:344-349 | From any state with a live session there are steps to a logout of it that a continuation undoes |
| `Handlers.LoginStart` | routes/session.go:40-114 | Accepts no methods or a list of method names, parks the flow under the state and the browser's binding; exactly the start step |
| `Handlers.TakeParked` | routes/session.go:181-186 | The flow is removed whatever the clock then says |
| `Handlers.EstablishSession` | routes/session.go:195-260 | Stores a session exactly if tokens came back: under the new id, with the flow's key, the response's tokens, expiry, subject and capabilities, and the anti-forgery token set on the browser |
| `Handlers.LoginCallback` | routes/session.go:134-212 | A return without the issuer, with an error, without a code or state, or without a valid binding changes nothing and is sent away with the marker of the first that applies; any other takes its flow whatever follows, and opens a session exactly if the flow lives, its key parses and tokens come back; exactly the steps of the system |
| `Admissions.ServedExactly` | routes/middleware.go:27-65 | A request whose session was read is served exactly if the session is there and live and the method is GET, HEAD or OPTIONS or the header is its non-empty anti-forgery token |
| `Admissions.ServedBroughtTheToken` | routes/middleware.go:46-56 | In every run, a request being served under any other method brought a header equal to the non-empty anti-forgery token of the session it is served on |
| `Handlers.RequireSession` | routes/middleware.go:27-65 | No cookie is refused unasked; a request is allowed only on a live session and, unless it is a GET, HEAD or OPTIONS, only with that session's non-empty anti-forgery token, and is refused as unauthorized or forbidden otherwise; exactly the request steps of its route |
| `Handlers.Refresh` | routes/session.go:326-352 | On an answer replaces the access token and its expiry, rotates the refresh token when a new one came, keeps the identity, slides the expiry; an unreadable key or a refusal changes nothing and ends the request |
| `Handlers.FreshToken` | routes/session.go:398-417 | Hands out the session's token while it may be reused, else a refreshed and stored one, else none and the request is over; what is stored in each case, and one question less to ask |
| `Handlers.Logout` | routes/session.go:360-394 | Removes the session and nothing else |
| `AnswerCache.MemoryAnswerCache.constructor` | anscache.go:61-63 | A new cache holds nothing |
| `AnswerCache.MemoryAnswerCache.Get` | anscache.go:65-80 | Returns the last value stored under the key exactly while it is no older than the time to live |
| `AnswerCache.MemoryAnswerCache.Sweep` | anscache.go:86-92 | The sweep deletes exactly the entries whose expiry has passed |
| `AnswerCache.MemoryAnswerCache.Set` | anscache.go:82-94 | Afterwards the map holds the new answer and every live old one, and nothing that is dead |
| `AnswerCache.LastStoreExactly` | anscache.go:82-94 | The last store under a key is exactly the one after which nothing was stored under it; there is none exactly if nothing ever was |
| `AnswerCache.AnswerKeyIsInjective` | routes/anscache.go:17-20 | Among users no two of whose subjects can share a key, a key names one subject, kind and target |
| `AnswerCache.ColonFreeUsersAreSeparate` | routes/anscache.go:17-20 | Users whose subjects hold no colon are such users |
| `AnswerCache.SubjectsCollideExactly` | routes/anscache.go:17-20 | Two subjects can share a key exactly if the longer continues the shorter with a colon, a kind and then a colon or its end |
| `AnswerCache.ColonSubjectsCollide` | routes/anscache.go:17-20 | Two subjects that share a key |
| `AnswerCache.ServedAnswersAreOwnAndRecent` | routes/anscache.go:33-58 | In every interleaving of such users, a reply from the cache is the last answer stored under its key before it, no longer ago than the time to live, and before that upstream gave it to the same user for the same kind and target |
| `AnswerCache.AnswersAreOwnExactly` | routes/anscache.go:33-58 | A set of users is served only own answers in every run exactly if no two of their subjects can share a key; otherwise there is a run, on targets the routes deliver, in which one is served another's answer |
| `AnswerCache.AnsweredExactly` | routes/anscache.go:22-45 | In every interleaving of such users, a request is answered from the cache exactly if it does not force a fresh round and the last answer stored under its key is no older than the time to live, and with that answer |
| `AnswerCache.AnswerReplaces` | routes/anscache.go:47-58 | An answer upstream gives, forced or not, is what the cache then holds for its target |
| `AnswerCache.ServedIsOwn` | routes/documents.go:329-342 | What the cache holds under a target's key is the last answer stored under it, validated and kept for that target |
| `OfferedFlows.OfferedFlows.Get` | clients/offer.go:92-112 | Asks exactly if it never did or the time to live has passed since the last reply, and returns what the questions so far call for |
| `OfferedFlows.Use` | clients/offer.go:92-112 | The same over any sequence of calls |
| `OfferedFlows.AskedOncePerTTL` | clients/offer.go:89-91 | The next question begins no sooner than the time to live after the last reply, so n questions within an interval take at least n - 1 times that long |
| `OfferedFlows.AsksExactly` | clients/offer.go:96-100 | Over any calls, those that ask are exactly the ones with the time to live passed since every earlier reply, the first among them |
| `OfferedFlows.AnswerIsTheLastSuccess` | clients/offer.go:89-111 | What is returned is the reply to the last question that succeeded; the error is none if that was the last question, else stale with the last cause |
| `OfferedFlows.NoAnswerYet` | clients/offer.go:89-91 | Before any success nothing is returned, with the raw error |
| `InflightGate.InflightGate.constructor` | routes/verify.go:225-231 | A cap below one is one |
| `InflightGate.InflightGate.Acquire` | routes/verify.go:234-244 | Admits and counts exactly if the key is below its cap |
| `InflightGate.InflightGate.Release` | routes/verify.go:248-257 | Counts down, dropping the key at zero |
| `InflightGate.CountsAreRunningRequests` | routes/verify.go:43-50 | In every interleaving the count under a key is the number of its running requests, at most the cap, and kept exactly while there are any |
| `InflightGate.RefusedExactlyAtTheCap` | routes/verify.go:233-257 | A request is refused exactly when others use up the cap, and no release finds its count at zero |
| `InflightGate.IdleGateIsEmpty` | routes/verify.go:246-256 | When no request is running the map is empty |
| `EnvelopeView.ComposeSlots` | routes/envelope.go:253-300 | The in-place slot loop composes every slot and asks for the state of exactly the jobs there are, in order |
| `EnvelopeView.CaptureViewerName` | routes/envelope.go:306-318 | The name loop stops at the viewer's first slot without a name and writes only there |
| `EnvelopeView.GetEnvelope` | routes/envelope.go:229-344 | The whole view and the calls it costs, in order |
| `EnvelopeView.OthersCodesDoNotShow` | routes/envelope.go:248-277 | Two details that differ only in identity codes matching the viewer alike, and in return addresses of slots not the viewer's, give a viewer who is not the owner the same view and the same calls |
| `EnvelopeView.SlotsAsShown` | routes/envelope.go:253-299 | Each slot in its place: state, signature and container of its job where the job has them, else the slot's own signature and durable container; the viewer's by their code or, without a code, by owning the envelope; codes only to the owner, a return address to the owner and the slot's own viewer; all else as stored |
| `EnvelopeView.NameIsShownExactly` | routes/envelope.go:302-318 | The viewer's name is shown exactly on their first slot without one and on no other |
| `EnvelopeView.DocumentsAsShown` | routes/envelope.go:320-342 | The documents in their places, each with the file name found for it or else the one it came with |
| `EnvelopeView.CallsExactly` | routes/envelope.go:280-338 | The calls in order: one state per slot with a job, the viewer's name asked for exactly if a slot of theirs has none and kept exactly if it can be read, one file name per document |
| `EnvelopeView.NameIsCapturedOnce` | routes/envelope.go:302-318 | At most one name is captured: the viewer's, on their first slot without one, where the view shows it |
| `SigningTrigger.CapturedCredentials` | routes/envelope.go:613-634 | The certificate selection: the named seal's, the only seal's, the login's, or none |
| `SigningTrigger.SignEnvelopeSlot` | routes/envelope.go:579-705 | The calls made, their inputs and the reply, branch by branch; signing begins only after an eligible answer, a job is recorded only after a successful beginning and is that job, each at most once; in-browser flows send the request's own certificate with no captured identity and no return addresses |
| `SigningTrigger.BeginningCarries` | routes/envelope.go:601-689 | Every beginning carries the request's own authentication certificate or else the captured one, return addresses exactly in a redirect flow, and the request's document, format and seal; a request is refused for want of a certificate exactly in the two in-browser flows without its own signing certificate or without either authentication certificate |
| `SigningTrigger.PairSent` | routes/envelope.go:613-675 | Whose identity and certificate go out: nobody's captured ones in the browser, the login's, the named seal's, or the only seal's; the request's certificate where none was captured |
| `SigningTrigger.CapturedIsOneSource` | routes/envelope.go:613-634 | The captured pair is unique and comes from one seal, from the login, or is empty |
| `SigningTrigger.RedirectInput` | routes/envelope.go:661-689 | A redirect request without a certificate sends the captured pair as captured, with the configured return addresses |
| `SigningTrigger.TogetherExactly` | routes/envelope.go:671-675 | Identity and certificate belong together except exactly when an identity was captured without one and the request brings one |
| `SigningTrigger.PairCanBeMixed` | routes/envelope.go:671-675 | A request whose pair does not belong together |
| `ReturnUrls.UnescapeEscape` | config.go:303-304 | An escaped identifier reads back to its bytes and holds no delimiter |
| `ReturnUrls.ReturnURLsAreReadable` | config.go:297-307 | Both addresses start with the origin and read back to their envelope, their slot and which of the two they are, for all byte strings |
| `ReturnUrls.ReturnURLsAreUnique` | config.go:297-307 | Addresses of different slots differ, and no success target is a failure target |
| `ReturnUrls.PlaceholderOccursOnce` | config.go:289-306 | Under an origin without braces the placeholder occurs exactly once in each address, at the job's place |
| `ReturnUrls.OriginIsResolved` | config.go:309-321 | The origin is the configured or else the post-login one without trailing slashes, and there are no addresses exactly when that is empty |
| `ReturnUrls.OriginIsDocumentedExactly` | config.go:309-321 | The origin is that of the first of the two addresses with a scheme and a host exactly if the configured one is blank, or has both, or is only slashes with nothing to fall back to |
| `ReturnUrls.OriginLacksHostExactly` | config.go:309-321 | Addresses are built on an origin without a scheme or a host exactly if the configured address is neither blank, nor only slashes, nor one with both |
| `ReturnUrls.OriginIsNotAsDocumented` | config.go:309-321 | A bare name is used as it stands; a lone slash suppresses the fallback |
| `MethodNames.NamesPatternIsJoins` | routes/session.go:22-22 | The pattern matches exactly the single-space joins of one to eight names |
| `MethodNames.AcceptedIsPattern` | routes/session.go:49-49 | Splitting decides the pattern and recovers the list that was joined |
| `MethodNames.NamePattern` | clients/signinmethods.go:14-14 | A name is a letter followed by at most 63 letters and digits |
| `Text.TrimSpaceExactly` | clients/signinmethods.go:42-46 | Trimming leaves what stands between a blank head and a blank tail, with no space at either end |
| `MethodNames.Flows` | clients/signinmethods.go:42-49 | The methods passed on are the published ones, trimmed, that are names, in their order |
| `MethodNames.OfferedIsAccepted` | clients/signinmethods.go:42-47 | Any one to eight offered methods make a text a sign-in start accepts, and it splits back to them |

## Left out

- Outbound calls, JSON, multipart bodies and the relaying of responses: upstream answers are parameters, and the calls made are recorded where their order matters.
- ID-token checks, proof of possession, PKCE, key serialization, identity-code parsing, the document gate, report normalization and the rate limiter are not part of this model; where a handler branches on one, the outcome is a parameter.
- The Redis store and the Redis cache, whose expiry is the server's own.
- Aliasing of request buffers, and of the session record within one request: keys and sessions are values.
- A null list and an empty list, which the dashboard tells apart only to print both as empty.
- `inviteIdentity`, `createEnvelope`, the other envelope transitions and `offeredOnly`: call chains and a plain filter.
- Go's URL parser: its answer for the post-login address is a parameter, and whether a configured address has a scheme and a host is judged by its shape, without the parser's checks of ports and escapes.
- The cookie's name, `Secure` and `SameSite` attributes; its Max-Age is taken as the flow time to live cut to whole seconds.
- Storing or encoding a session or flow never fails in the model, as it does not in the in-memory store; a request may stop after any step.
- The work of a route beyond its session: it counts as a logout, a refresh, or the number of times it may ask for the access token; whether a route asks as often as it may is left open, and a request that did not get a token asks no more and is over as far as the store goes.
- The body of a verification between acquire and release: the deferred release is the request's last step on every path.
- Text in other encodings: comparison of characters stands for Go's comparison of UTF-8 bytes, which orders alike.
- Configuration, start-up, audit and security events, health checks, routing and logging.
