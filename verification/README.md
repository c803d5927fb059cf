# Verified model of Syfon's client-side protocols and formats

This project models the parts of the Syfon client in which an error would be hard to see by
reading one function, and proves what they promise:

* **The bearer-token refresh protocol** (`AuthTransport`, `RefreshProtocol`, `RefreshSafety`,
  `RefreshProgress`, `RefreshAtomicity`, `RefreshOutcomes`). Many goroutines share one transport. Each sends a
  request with the stored token, may be answered 401, and then replaces the token, unless
  another goroutine already did. `AuthTransport` holds the operations as one goroutine executes them: classes with the
  fields the source updates, proved against functions. `RefreshProtocol` cuts the same
  operations into atomic steps of any number of threads over a reader/writer lock, a mutex, the
  token in memory and the token on disk, and proves an inductive invariant. `RefreshSafety` and
  `RefreshProgress` prove what follows for every run. `RefreshAtomicity` ties the two levels
  together: in every interleaving a refresh does what the one-step function says.
  `RefreshOutcomes` counts, from the events of a run alone, how often a request is sent, why, how
  it ends, and which header it carries.
* **Access resources** (`AccessResources`, `AccessNormalForms`, `AccessIdempotence`,
  `AccessRoundTrips`). Path aliases and URL claims are normalised to `/organization/<org>[/project/<project>]`, and lists
  of them are turned into maps from organizations to projects and back. Go visits a map in any
  order: the loops pick the next key arbitrarily, and the lemmas hold for every order.
* **The error contract** (`ErrorContract`, `ApiError`). Trees of wrapped and joined errors are
  searched for a code, a category or a sentinel, and JSON error payloads of any depth are turned
  into a classified error.
* **Lookup and deletion by hash** (`HashLookup`), against a server that may refuse any query and
  any deletion.
* **Names of storage objects** (`StorageUrl`, `CanonicalNames`, `ObjectLocation`). Several
  spellings of a URL should name one bucket and key, and a canonical name should stay what it is.
* **Checksums** (`Checksums`). The map form and the list form of an object's hashes.

`Basics`, `Strings` and `UrlText` hold the facts about sequences, strings and the text of URLs
that the rest needs.

## Properties that hold only under a condition

Some promises turned out to hold for some inputs only. Each is stated with its exact condition.

* A retry never repeats a refused token if and only if the token the transport started with has
  no inner space (`RefreshSafety.RetryGuarantee`). With an inner space `bearerToken` recovers
  the empty string, `refreshIfCurrent` takes that for an outdated token and asks for a retry
  without refreshing; `RefreshSafety.StuckRun` builds such a run.
* `AuthzMapToList` and `AuthzListToMap` round-trip a map if and only if every name is trimmed,
  non-empty and free of slashes, or is an organization of slashes only without projects
  (`AccessRoundTrips.MapRoundTrip`). The second form is an oddity: `/organization//` passes
  `NormalizeAccessResource` unchanged and is read as the organization `/`.
* The comments above `AuthzListToMap` and `AuthzMapToList` do not mention that an
  organization-wide path is lost next to a project path of the same organization. The list
  survives as a set if and only if no organization is named both ways
  (`AccessRoundTrips.ListSetRoundTrip`).
* Going from a map to claims and back gives the same map if and only if, in addition, no project
  is listed twice under one organization (`AccessRoundTrips.ClaimsRoundTrip`).
* Normalising an access resource is idempotent on texts without `%`, `?` and `#`. Normal forms
  are put together from decoded names, so for other texts the law can fail. It holds if and only
  if the text is not put together anew, or its normal form is empty, or is refused by
  `url.Parse`, or has none of the three characters, or consists of slashes only, plain or escaped,
  after `/organization/` and before any `?` or `#` (`AccessIdempotence.IdempotentExactly`).
* Canonicalising a canonical name again gives it back, for any hint, if and only if its bucket
  names a host that is printed as it is, its key has only characters that a path is printed with,
  every `%` in it begins an escape, and a `?` stands at most at its very end
  (`CanonicalNames.CanonicalTwice`). Names are built from decoded paths, so
  the name `s3://b/my file` of an uploaded object becomes another one when it is canonicalised.
* `normalizeChecksum` drops one `sha256:` prefix per call and is applied twice on the way to a
  deletion; the second pass changes something if and only if a second prefix follows the first
  (`HashLookup.NormalizeTwice`).
* A path-style URL without a bucket hint, or a virtual-hosted one with a hint, names the object
  `b/k` if and only if the key does not itself begin with the bucket and a slash
  (`StorageUrl.PathStyleUnhinted`, `StorageUrl.VirtualHosted`).
* A virtual-hosted S3 or GCS host yields its bucket if and only if the lazy match for S3 cannot
  stop inside the bucket's name (`ObjectLocation.OneS3Location`, `ObjectLocation.OneGcsLocation`).
* A checksum list may be reordered freely if and only if no type occurs with two values
  (`Checksums.OrderIsIrrelevant`).

## Assumptions

* The server hands out tokens that are new and have no inner space (b64token, section 2.1 of
  RFC 6750): `RefreshProtocol.Honest`. Saving a profile writes all of it or nothing. Refreshes
  start only from the retry hook, and nothing else writes the credential.
* `url.Parse(s).Path` is a parameter. What is assumed of it is
  `AccessNormalForms.KeepsPlain`: on texts without `%`, `?` and `#` it adds none of them, and it
  is the identity on those with exactly one leading slash (section 3.3 of RFC 3986). For the
  exact idempotence law it is `AccessIdempotence.DecodesPaths`: the path of a text with one leading
  slash is the part before any query or fragment, decoded.
* `CanonicalNames.Prints` says how `url.Parse` and `URL.String` treat names of the form
  `s3://a/k`: a path is printed as it was written if it has only characters that may stand in a
  path, and otherwise in such characters; queries and fragments are dropped; printed URLs are read
  and printed as they are. How a bucket outside letters, digits and `-._~` is read is a parameter.
  `CanonicalNames.PrintsIsPossible` shows that these demands do not contradict each other.
* Parsed URLs, parsed JSON, the texts of status codes, the table from wire text to error code,
  the retry library's default policy, and the answers of the server are parameters.
* A deletion is judged against a server that answers a query with exactly the records carrying
  the hash, and whose ids are trimmed (`HashLookup.Complete`). The methods themselves make no
  such assumption.

## Model

| member | source | states |
|---|---|---|
| AuthTransport.BearerRoundTrip | client/request/request.go:282-288 | `bearerToken` recovers the token that `apply` wrote if it has no inner space, and the empty token otherwise |
| AuthTransport.BearerAnyCase | client/request/request.go:282-288 | the scheme is compared without regard to case, and another scheme gives no token |
| AuthTransport.RefreshErrors | client/request/auth.go:47-103 | which error a refresh reports, each exactly under its own condition, and the token it stores without one |
| AuthTransport.RefreshIsAtomic | client/request/auth.go:94-105 | a refresh with an error changes neither memory nor disk; memory and disk agree afterwards if they did before; memory only ever changes from the rejected token to the server's |
| AuthTransport.RefreshReplaces | client/request/auth.go:158-178 | after a refresh without error the stored token is not the rejected one, if the server does not hand that one out again |
| AuthTransport.Manager.Save | client/request/auth.go:97-98 | saving stores the credential's token or leaves the profile alone |
| AuthTransport.Transport.Apply | client/request/auth.go:117-143 | a skipped request and a caller's own header are left as they are; otherwise `Bearer` with the trimmed token, or key id and key, or nothing if they are blank; the read lock is released on every path |
| AuthTransport.Transport.RoundTrip | client/request/auth.go:145-156 | a fresh copy is sent with that header, the caller's request is untouched, and the context records why authentication was skipped |
| AuthTransport.Transport.NewAccessToken | client/request/auth.go:34-106 | new memory, new disk and error are exactly those of the atomic refresh; `mu` is free on return |
| AuthTransport.Transport.RefreshCurrent | client/request/auth.go:158-178 | refreshes exactly if the stored token is still the rejected one; both locks are free on return |
| AuthTransport.Transport.CheckRetry | client/request/request.go:160-182 | a 401 in bearer mode with endpoint, key and known request, neither skipped nor with its own header, is retried exactly if the refresh reports no error; any other response gets the default policy's decision and changes nothing |
| RefreshProtocol.StartInv | client/request/auth.go:108-115 | the initial state satisfies the invariant |
| RefreshProtocol.NextLocks | client/request/auth.go:158-172 | every step keeps: each lock is held exactly by the threads whose position says so, and a writer excludes readers and other writers |
| RefreshProtocol.NextHistory | client/request/auth.go:94-105 | every step keeps: the tokens in force never repeat, each successful refresh replaced the one before, no token with a failed save is among them |
| RefreshProtocol.NextTokens | client/request/auth.go:95-104 | every step keeps: memory and disk hold the token in force, except between overwriting memory and the answer of the save, where the previous token is still known |
| RefreshProtocol.NextThreads | client/request/auth.go:158-178 | every step keeps what each thread knows: a confirmed rejected token is still in force, an issued token is not, a header under way carries a token that was in force |
| RefreshProtocol.NextSent | client/request/auth.go:145-156 | every step keeps: what was sent with the stored token carried a token that was in force |
| RefreshProtocol.NextInv | client/request/auth.go:34-178 | every enabled step keeps the whole invariant |
| RefreshProtocol.RunInv | client/request/auth.go:34-178 | so does every run |
| RefreshSafety.CommitsAreRefreshes | client/request/auth.go:94-105 | the history grows by exactly one token per successful save and never otherwise |
| RefreshSafety.OneRefreshPerToken | client/request/auth.go:158-178 | over any run each token is successfully refreshed at most once, however many requests were refused with it; the refreshed tokens are the tokens in force, in order |
| RefreshSafety.OnlySavedTokensAreSent | client/request/auth.go:94-105 | while nobody writes, memory equals disk; no request is ever sent with a token whose save failed |
| RefreshSafety.ClearedForever | client/request/auth.go:158-178 | once `refreshIfCurrent(x)` returned no error, the stored token differs from x in every later state, whatever the first token was |
| RefreshSafety.RetryUsesNewToken | client/request/request.go:160-182 | no retry carries a header that this request already had refused |
| RefreshSafety.StuckRun | client/request/request.go:174-179 | a stored token with an inner space leads to a run in which the retry repeats the refused header |
| RefreshSafety.RetryGuarantee | client/request/request.go:160-182 | no run repeats a refused token if and only if the initial token has no inner space |
| RefreshProgress.Exclusion | client/request/auth.go:38-72 | one thread at most is inside the refresh section, `mu` is not held by it during the POST, and a finished thread holds no lock |
| RefreshProgress.LocksBalance | client/request/auth.go:94-104 | over any run each thread holds each lock at most once, and a finished thread released each as often as it took it |
| RefreshProgress.NoDeadlock | client/request/auth.go:162-177 | in every reachable state with an unfinished request some step is possible |
| RefreshProgress.RunsEnd | client/request/request.go:123-182 | every run of n requests ends after at most 107·n steps, and only with all requests finished (how each of them ends is `RefreshOutcomes.EveryRequest`) |
| RefreshProgress.CallRefines | client/request/auth.go:158-178 | for every outcome of POST and save the one-step specification is reached by an undisturbed run of the protocol |
| RefreshAtomicity.OneEnvironment | client/request/auth.go:54-104 | between taking and releasing `refreshMu` a call posts and saves at most once |
| RefreshAtomicity.OthersLeaveTokens | client/request/auth.go:162-177 | while one thread holds `refreshMu`, no step of another changes a token |
| RefreshAtomicity.RefreshesAtomically | client/request/auth.go:158-178 | in every interleaving, from taking `refreshMu` to releasing it, tokens and error end as the one-step specification says of the tokens at the beginning |
| RefreshOutcomes.EveryRequest | client/request/request.go:160-182 | in every run a request is sent once before the first and once after each reason to try again, which is a transient reply or a refresh without error; it has given up exactly after six reasons, and is cancelled or failed exactly if that happened |
| RefreshOutcomes.AnsweredExactly | client/request/request.go:164-181 | in every run a request has ended with an answer if and only if a final reply to it was received: one to a request that may not be repeated, one that is neither transient nor a refusal, or a refusal that cannot lead to a refresh |
| RefreshOutcomes.SendsBounded | client/request/request.go:246-280 | no request is sent more than six times; one that writes, has a body or forbids retries is sent once at most and never refreshes; only a request with the stored bearer token and an API key does |
| RefreshOutcomes.RepeatedExactly | client/request/request.go:273-280 | some run sends a request more than once if and only if it is a GET, HEAD or OPTIONS without a body that does not forbid retries |
| RefreshOutcomes.EveryHeaderSent | client/request/auth.go:117-156 | every header sent in any run: exactly the caller's for a skipped request and for one with its own header, nothing without a credential, key id and key in basic mode, a token that was in force in bearer mode |
| AccessResources.NormalizeAccessResources | client/access/resources.go:121-139 | the result holds exactly the non-empty normal forms, each once, where it first occurs |
| AccessResources.AuthzListToMap | client/access/resources.go:43-65 | the map has exactly the organizations the paths name, each with its projects in order and with repeats |
| AccessResources.AuthzMapToList | client/access/resources.go:69-89 | the list is the entries of all organizations, each once, in some order |
| AccessResources.ListingMembers | client/access/resources.go:69-89 | a path is in the list if and only if it is an entry of some organization |
| AccessResources.ListEntries | client/access/resources.go:74-86 | one organization without projects yields its own path; otherwise every project yields one path, that of the organization if it is blank |
| AccessResources.ControlledAccessToAuthzMap | client/access/resources.go:141-143 | the map of the claims' distinct normal forms |
| AccessResources.AuthzMapToControlledAccess | client/access/resources.go:145-147 | the distinct normal forms of the list form, for some order |
| AccessNormalForms.NormalFormCases | client/access/resources.go:94-119 | for every URL parser and text: a text whose path does not begin with an organization's word and another segment is only trimmed; the normal form is empty exactly for blank texts and blank organizations |
| AccessNormalForms.Aliases | client/access/resources.go:102-112 | the words that begin an organization and a project |
| AccessNormalForms.UntouchedIsSlashes | client/access/resources.go:94-119 | a text that begins like a resource and is left alone has only slashes after the beginning |
| AccessNormalForms.ScopeIsProper | client/access/resources.go:162-173 | for every plain text: its scope is one that parsing can produce and its normal form is exactly how that scope is printed, or it has no scope |
| AccessNormalForms.NormalizeIdempotent | client/access/resources.go:94-119 | normalising twice is normalising once, and keeps the scope, on every text without `%`, `?` and `#` |
| AccessIdempotence.UntouchedStays | client/access/resources.go:94-119 | whatever the URL parser does, a text that is not put together anew is only trimmed, and then stays |
| AccessIdempotence.StaysBySegments | client/access/resources.go:94-119 | whatever the URL parser does, a normal form that was put together stays if and only if its segments name no organization or the same scope again |
| AccessIdempotence.IdempotentExactly | client/access/resources.go:94-119 | for every text, normalising twice is normalising once if and only if one of five conditions on text and characters holds |
| AccessIdempotence.NormalizeDecodesTwice | client/access/resources.go:94-119 | an input at which it is not: `%2541` becomes `%41` and then `A` |
| AccessNormalForms.PrintParses | client/access/resources.go:11-24 | a printed scope is its own normal form and reads back as that scope |
| AccessNormalForms.PrintInjective | client/access/resources.go:11-24 | two scopes with one printed form are one scope, even when a name is `project` |
| AccessNormalForms.SpelledNormalizes | client/access/resources.go:94-119 | every alias and every extension by further segments has the same normal form |
| AccessNormalForms.OrgNormalizes | client/access/resources.go:94-119 | so has every spelling of an organization, with any further segments that name no project |
| AccessNormalForms.ProjectClaimNormalizes | client/access/resources.go:94-119 | a claim whose URL has such a path has the normal form of that project |
| AccessNormalForms.OrgClaimNormalizes | client/access/resources.go:94-119 | a claim whose URL has a path naming only an organization has the normal form of that organization |
| AccessNormalForms.ScopeRoundTrip | client/access/resources.go:153-173 | `ResourceScope` recovers organization and project from `ResourcePath` and from every accepted spelling |
| AccessNormalForms.ScopeReported | client/access/resources.go:153-159 | a scope is reported if and only if the normal form is how some scope is printed, and then it is that one |
| AccessNormalForms.ResourcePathCases | client/access/resources.go:11-24 | refused exactly for a project without an organization, empty exactly for neither, otherwise the path letter by letter |
| AccessNormalForms.NoOrgNoEntry | client/access/resources.go:28-38 | a scope gives no entry exactly if it has no organization |
| AccessRoundTrips.MapRoundTrip | client/access/resources.go:43-89 | for every visiting order, map to list to map is the identity, order and multiplicity included, if and only if every entry of the map is proper |
| AccessRoundTrips.ScopeMapsAgree | client/access/resources.go:28-38 | the map built for a scope directly is the map read from that scope's resource path |
| AccessRoundTrips.ListRoundTrip | client/access/resources.go:43-89 | list to map to list keeps every project scope with its multiplicity, and an organization-wide scope once exactly if its organization has no project |
| AccessRoundTrips.ListSetRoundTrip | client/access/resources.go:43-89 | the set of scopes survives if and only if no organization is named both ways |
| AccessRoundTrips.NormalizeListIdempotent | client/access/resources.go:121-139 | normalising a list twice is normalising it once |
| AccessRoundTrips.DedupProjects | client/access/resources.go:121-139 | dropping repeated normal forms drops exactly the repeated projects of each organization |
| AccessRoundTrips.ClaimsMap | client/access/resources.go:141-143 | the map of claims has exactly the organizations named, each with its projects in order and without repeats |
| AccessRoundTrips.ClaimsRoundTrip | client/access/resources.go:141-147 | for every visiting order, map to claims to map is the identity if and only if the map is proper and lists no project twice |
| AccessRoundTrips.BlankProjectIsLost | client/access/resources.go:78-82 | a map with a blank project does not return |
| AccessRoundTrips.RepeatedProjectIsLost | client/access/resources.go:121-139 | a proper map with a repeated project does not return from claims |
| ErrorContract.StatusTablesAgree | apigen/errorapi/contract.go:165-212 | the category of a status is the category of its code |
| ErrorContract.StatusCodes | apigen/errorapi/contract.go:165-187 | the code of every status |
| ErrorContract.CategoriesPartitionCodes | apigen/errorapi/contract.go:138-159 | the codes of every category, and none for all others |
| ErrorContract.BroadCodesAreStatusCodes | apigen/errorapi/contract.go:85-92 | a code is broad if and only if some status stands for it |
| ErrorContract.SentinelsAreSentinels | apigen/errorapi/contract.go:50-83 | every exported sentinel has a listed code with the category of the code table |
| ErrorContract.VisitErrors | apigen/errorapi/contract.go:120-136 | the visitor captures the first value in preorder over every finite tree, nil children included, and reports whether there is one |
| ErrorContract.CodeOf | apigen/errorapi/contract.go:94-105 | the first non-empty code in preorder; false if and only if there is none |
| ErrorContract.CategoryOf | apigen/errorapi/contract.go:107-118 | the first non-empty category in preorder; false if and only if there is none |
| ErrorContract.FirstPickedAt | apigen/errorapi/contract.go:120-136 | what "first" means: all nodes before it offer nothing |
| ErrorContract.OuterFirst | apigen/errorapi/contract.go:120-123 | an error that says something itself decides, whatever it wraps |
| ErrorContract.CauseNext | apigen/errorapi/contract.go:132-134 | otherwise its cause does |
| ErrorContract.EarlierCauseFirst | apigen/errorapi/contract.go:124-131 | of several causes the first that says something anywhere inside it does |
| ErrorContract.CodeAndCategoryAgree | apigen/errorapi/contract.go:94-118 | if every node carries both or neither, both searches stop at one node, and a listed code has the category of the code table |
| ErrorContract.IsMeansSomeNode | apigen/errorapi/contract.go:25-34 | `errors.Is` holds exactly if some node of the tree answers yes |
| ErrorContract.ExactSentinel | apigen/errorapi/contract.go:25-34 | against an exact sentinel: exactly if some definition or API error has its code |
| ErrorContract.BroadSentinel | client/apierror/apierror.go:59-72 | against a broad sentinel: exactly if some definition or API error has its category |
| ErrorContract.DefinitionsAndApiErrorsAlike | client/apierror/apierror.go:59-72 | replacing every definition by an API error with its code and category changes no answer |
| ErrorContract.CodelessTarget | client/apierror/apierror.go:63-71 | a target without a code is met by category by an API error, and by a definition only if that has none either |
| ApiError.FirstNonEmptyAt | client/apierror/apierror.go:203-210 | the result is the first candidate that is not blank, trimmed |
| ApiError.ScanErrorCodes | client/apierror/apierror.go:147-177 | the recursive scan finds the first non-numeric candidate of all depths, and without one the code of the first numeric one |
| ApiError.ScanLevel | client/apierror/apierror.go:153-165 | the same for the keys of one level |
| ApiError.DecidingCandidate | client/apierror/apierror.go:139-177 | which candidate decides: everything before it is numeric or empty, and a number decides only if no candidate at any depth is a word |
| ApiError.Decides | client/apierror/apierror.go:147-177 | a list has a deciding word, or a deciding number, or no candidate, and that fixes its word and number |
| ApiError.CodeKeyOrder | client/apierror/apierror.go:153-167 | `error_code`, `code`, `type` at a level, then the same below `error` |
| ApiError.CategoryKeyOrder | client/apierror/apierror.go:129-133 | `category`, `error_category`, then below |
| ApiError.RequestIdKeyOrder | client/apierror/apierror.go:131-133 | `request_id`, `requestId`, then below |
| ApiError.MessageKeyOrder | client/apierror/apierror.go:130-136 | `message`, `msg`, then below, and the text under the innermost `error` last |
| ApiError.ValueTexts | client/apierror/apierror.go:179-194 | text counts trimmed, a number if it is whole, nothing else |
| ApiError.SignedNumbers | client/apierror/apierror.go:158 | a sign may come before the digits of a number and nothing else may be in it |
| ApiError.StatusText | client/apierror/apierror.go:158-160 | three digits are read as the status they spell |
| ApiError.PayloadOf | client/apierror/apierror.go:113-120 | a body counts exactly if it is not blank and is an object |
| ApiError.FirstErrorCode | client/apierror/apierror.go:139-145 | the code of a payload is that of the deciding candidate |
| ApiError.PayloadCodeNamed | client/apierror/apierror.go:139-145 | a payload names no code exactly if all candidates at all depths are empty |
| ApiError.DecodeObject | client/apierror/apierror.go:125-137 | category, message and request id become the first non-blank of the present value and the candidates of all depths, outermost first; the text under the innermost `error` comes last for the message |
| ApiError.DecodePayload | client/apierror/apierror.go:113-123 | a body that is not an object contributes nothing; otherwise the same for the whole payload, with the header first for the request id |
| ApiError.FromResponse | client/apierror/apierror.go:74-111 | for every response and body: the deciding word of the payload names the code, else its deciding number, else the status; a listed code decides the category, else the payload does, else the status; the message is the payload's, else the body, else a status text; `errors.Is` answers by that code and category |
| ApiError.CompleteCode | client/apierror/apierror.go:90-97 | code and category after the fallbacks |
| ApiError.CompleteMessage | client/apierror/apierror.go:98-109 | the payload's message, else the body, else a status text, never nothing |
| ApiError.ResponsesAreClassified | client/apierror/apierror.go:90-97 | code and category are never empty, a listed code decides the category, and `errors.Is` answers by category for broad and by code for exact sentinels |
| ApiError.StatusDecidesAlone | client/apierror/apierror.go:90-97 | without a code in the payload the status decides code and category, whatever category the payload claims |
| HashLookup.NormalizeTwice | client/services/drs_service.go:199-203 | a second normalisation changes nothing exactly if no second prefix follows the first, spaces aside |
| HashLookup.TwoPrefixes | client/services/drs_service.go:199-203 | an input with two prefixes, which loses one per pass |
| HashLookup.SpelledChecksum | client/services/drs_service.go:199-203 | spaces around a checksum and one prefix before it do not count |
| HashLookup.BatchGetObjectsByHash | client/services/drs_service.go:139-167 | everything found for the non-blank normalised hashes, once per trimmed id, or the first failure |
| HashLookup.BatchFails | client/services/drs_service.go:143-156 | a batch fails exactly if some non-blank hash's lookup does, with the first that does |
| HashLookup.FoundMembers | client/services/drs_service.go:143-165 | what is found is what some non-blank hash lists |
| HashLookup.FirstIsKept | client/services/drs_service.go:157-164 | of several objects with one id the first is kept |
| HashLookup.DedupByIdIds | client/services/drs_service.go:155-163 | the kept objects are among those found and have exactly the distinct ids, in order of first occurrence |
| HashLookup.TargetsDistinct | client/services/drs_service.go:179-188 | the ids of a page are distinct, so the second duplicate check never fires |
| HashLookup.Index.Delete | client/services/drs_service.go:189-191 | one deletion on the server removes that record or nothing |
| HashLookup.DeletePage | client/services/drs_service.go:179-196 | records, log of deletions and error after deleting what a page lists |
| HashLookup.DeleteRecordsByHash | client/services/drs_service.go:169-197 | records, log of deletions and error for every hash, lookup and set of refused ids |
| HashLookup.TargetsAreCarriers | client/services/drs_service.go:169-188 | against a complete server the ids to delete are exactly the non-blank ids of records carrying the hash |
| HashLookup.DeletionRemovesExactly | client/services/drs_service.go:169-197 | what the server lists are the carriers of the hash, each once; without an error all are gone; at a refusal exactly those listed before the refused one; after any other error none |
| HashLookup.DeletionErrors | client/services/drs_service.go:169-197 | each error, and success, exactly under its own condition on the answer and the refused ids |
| HashLookup.BlankHashDeletesNothing | client/services/drs_service.go:169-178 | a hash that normalises to nothing is answered "no records" and deletes nothing |
| StorageUrl.ParseGCSJSONUploadURL | client/services/storage_url.go:78-101 | the search loop finds the part after the first part `b` |
| StorageUrl.CanonicalObjectURL | client/services/storage_url.go:9-76 | the result for every parsed or unparsable URL, hint and fallback |
| StorageUrl.PathStyle | client/services/storage_url.go:29-59 | splitting, inferring and stripping the bucket amount to cutting the path once |
| StorageUrl.GcsAccepts | client/services/storage_url.go:82-100 | a URL is taken for a JSON upload exactly if it has the upload type, a name and a bucket after the first part `b`, and then bucket and key are those |
| StorageUrl.AzureAccepts | client/services/storage_url.go:107-132 | a URL is taken for a signed blob exactly if it has a signature, the resource type `b`, a container and a key |
| StorageUrl.PlainQuery | client/services/storage_url.go:83-109 | without upload type or name and without signature or blob type neither shape is taken |
| StorageUrl.NoBucketExactly | client/services/storage_url.go:34-44 | refused for want of a bucket exactly if hint and path have none |
| StorageUrl.PathlessName | client/services/storage_url.go:52-59 | without a path the fallback is the key |
| StorageUrl.HostlessName | client/services/storage_url.go:64-74 | without scheme or host the fallback is the key, or else the last segment of the path |
| StorageUrl.PathStyleHinted | client/services/storage_url.go:29-59 | a path-style URL with the bucket as hint names `s3://b/k` |
| StorageUrl.PathStyleUnhinted | client/services/storage_url.go:33-49 | without a hint it does if and only if the key does not begin with `b/`; otherwise one `b/` is lost |
| StorageUrl.VirtualHosted | client/services/storage_url.go:29-49 | a virtual-hosted URL with the hint does under the same condition |
| StorageUrl.GcsJsonUpload | client/services/storage_url.go:22-24 | the JSON upload form names the object whatever the hint |
| StorageUrl.AzureBlob | client/services/storage_url.go:103-133 | Azure's form and its emulator's do, whatever the hint and the key |
| CanonicalNames.NameStable | client/services/storage_url.go:60-63 | a name is its own canonical name for every hint and fallback if and only if bucket and key have only what printing keeps |
| CanonicalNames.VerbatimStable | client/services/storage_url.go:19-20 | a URL that is answered as printed stays, unless a space at its end is trimmed away |
| CanonicalNames.CanonicalTwice | client/services/storage_url.go:9-76 | for every URL, hint and fallback: when canonicalising the result again, with any hint and fallback, gives it back |
| CanonicalNames.PathStyleTwice | client/services/storage_url.go:29-63 | for a path-style URL of a bucket of unreserved characters, exactly if the key has only what a path is printed with |
| CanonicalNames.SpaceIsRewritten | client/services/storage_url.go:29-63 | so the name of a key with a space does not last |
| CanonicalNames.PrintsIsPossible | client/services/storage_url.go:10-16 | what is assumed of parsing and printing can be met |
| ObjectLocation.VirtualS3Bucket | client/cloud/inspect.go:55 | the lazy match yields the bucket if and only if it cannot stop inside it; otherwise it yields something shorter |
| ObjectLocation.OneS3Location | client/cloud/inspect.go:148-225 | the native, virtual-hosted and path-style forms of an S3 object have one location, the virtual-hosted one exactly under that condition |
| ObjectLocation.OneGcsLocation | client/cloud/inspect.go:148-225 | the three forms of a GCS object have one location, the virtual-hosted one exactly if the match for S3 cannot stop inside its bucket |
| ObjectLocation.OneAzureLocation | client/cloud/inspect.go:172-213 | the native and the HTTP form of an Azure blob have one location |
| ObjectLocation.NameOfKey | client/cloud/inspect.go:154-170 | without an override the name is the last segment of the key, whatever slashes follow; a key whose last segment is a single dot is refused |
| ObjectLocation.OverrideNames | client/cloud/inspect.go:155-164 | an override is the name, trimmed, unless it is a dot or a slash |
| ObjectLocation.NoNameInSlashes | client/cloud/inspect.go:157-161 | a key of slashes only is refused |
| ObjectLocation.PathStyleRefused | client/cloud/inspect.go:199-202 | a path-style URL is refused exactly if it lacks a bucket or a key |
| ObjectLocation.LocationErrors | client/cloud/inspect.go:172-224 | unsupported scheme, missing bucket, missing key and unsupported host, each exactly when |
| Checksums.ChecksumsOf | client/services/drs_service.go:222-231 | the list has each type once, in some order, with its value |
| Checksums.ConvertChecksumsToMap | client/hash/hash.go:93-99 | the map that keeps the last entry of each type |
| Checksums.ToMapIsLast | client/hash/hash.go:93-99 | that map holds exactly the last entry of each type |
| Checksums.OrderIsIrrelevant | client/hash/hash.go:93-99 | every permutation of a list converts to the same map if and only if no type has two values |
| Checksums.MapRoundTrip | client/services/drs_service.go:222-231 | map to list, in any order and shuffled in any way, to map is the identity |
| Checksums.ConvertStringMapToHashInfo | client/hash/hash.go:67-91 | md5, sha1, sha256, sha512, crc32c and etag fill their fields for every visiting order, a missing one leaves its field empty; other types are ignored |
| Checksums.ConvertChecksumsToHashInfo | client/hash/hash.go:101-104 | the same for the list form |
| Checksums.HashInfoRef.UnmarshalJSON | client/hash/hash.go:46-65 | the receiver is overwritten by what the payload says, or untouched with an error |
| Checksums.BothFormsDecodeAlike | client/hash/hash.go:46-104 | the map form and any permutation of the list form decode to the same hashes |

## Left out

- HTTP itself: TLS, redirects, timeouts, waiting between retries and the inside of the retry library; all that is kept is that the retry hook decides after each attempt and that at most five retries follow. In the protocol a retryable failure other than a refreshable 401 is one kind of reply, `Transient`; a request whose context ends before an attempt stops there, and one whose context ends in flight gets a final reply.
- Header validation by the HTTP transport: a token with control characters is sent like any other.
- Base64 in basic authentication: `BasicHeader` keeps the pair in the clear.
- RefreshProgress.RunsEnd: says that runs are finite and end with all requests finished; it assumes that every reply, POST and save is answered, and says nothing about fairness because none is needed for it.
- RefreshProgress.CallRefines: is about an undisturbed call, because it constructs the run; `RefreshAtomicity.RefreshesAtomically` is about all interleavings.
- RefreshSafety.RetryUsesNewToken: speaks of the tokens the retry hook deals with; a caller's own Authorization header is repeated by design.
- RefreshSafety.RetryGuarantee: a reader waiting for `mu` while a writer is announced is modelled, but not the order in which waiting goroutines get a lock, because no property depends on it.
- INI files and partial writes in client/config/config.go: `Manager.Save` is one step.
- Token validity checks (client/config/validate.go): not part of the protocol.
- AccessRoundTrips.MapRoundTrip: is about maps whose names are free of `%`, `?` and `#`; beyond that it depends on percent-decoding, which is a parameter (`AccessIdempotence.NormalizeDecodesTwice` shows what happens).
- The difference between a nil and an empty Go map or slice.
- Percent-decoding, the details of `url.Parse`, JSON syntax and the printing of numbers: parsed values are parameters; a JSON number is represented by its decimal text.
- ErrorContract.IsMeansSomeNode: is about a definition as target; comparing two errors of other types by identity is not modelled.
- ApiError.FromResponse: leaves out the copy of the response headers; the text of `Error()` is not modelled, because no property depends on it.
- HashLookup.BatchGetObjectsByHash: an object is its id and an opaque rest; how a record becomes an object (client/services/drs_service.go:205-241) is modelled only for its checksums, in `Checksums`.
- ObjectLocation.OneS3Location: leaves out the query of the bucket URL that `normalizeCloudBucketURL` and `buildS3BucketURL` assemble from the configuration; the location is its provider, bucket, key and name.
- Reading SHA-256 values from object metadata (client/cloud/inspect.go:276-305): its last loop takes any of several candidates, so there is nothing to promise about which.
- The multipart transfer engine, the command line, generated request builders, and calls into cloud SDKs.
