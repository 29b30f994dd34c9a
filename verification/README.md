# El Pulpo, modelled and proved

El Pulpo is a proxy in front of a fleet of LLM servers. This project models, in
Dafny, the parts of it that several goroutines or several functions must agree on,
and proves what those parts promise over every input, every run and every
interleaving:

- the FIFO concurrency semaphore, with its direct hand-off, the race between a grant
  and a cancellation, and cap changes while slots are held (`SemModel`,
  `FairSemaphore`);
- the least-in-flight-cost balancer, its registry, and what the greedy pick amounts to
  over whole runs of admissions (`Balancer`, `Balancing`);
- server health, address election, the published route table and the names built from
  it (`HealthModel`, `Health`, `RouteTable`, `Names`, `Fleet`);
- name resolution against the list of models (`Vocabulary`), every interleaving of
  requests (`Lifecycle`, `Outcomes`, `Conservation`, `Runs`), the balancer within them
  (`RouteTraffic`), all ways out of a request with what the client is sent (`Dispatch`),
  the streaming pump (`StreamPump`) and what a response is shown as in either dialect
  (`Dialect`);
- the configuration document: its validator (`Document`, `Rules`, `Patterns`,
  `AddressForm`, `Incremental`, `Validation`, `Validated`), its canonical form (`Canonical`, `CanonicalForm`,
  `Printer`) and the file store around it (`StoreModel`, `Store`);
- the settings manager (`Settings`);
- the price index and the grouped usage summary (`PriceIndex`, `Summary`).

`ConfigTypes`, `Wrappers`, `Strings` and `Sorting` are shared by all of them.

Code that changes things step by step is modelled so: classes for the semaphore and
its waiters, the registry, the server state and the health manager, the validator, the
configuration draft, the store and its file, the settings manager and its table, the
client's response; loops with invariants where the source loops. Each such method is
proved equal to a step of a specification function or against a declarative
predicate, and the theorems are about those. A locked section of the source is one step.

`dafny verify dfyconfig.toml` checks everything.

## Where the code and its description part ways

Each of these is proved, with the exact condition or a concrete run.

- "Shrinking absorbs over-allocation in flight" (`internal/health/sem.go:60`): it does
  not. Excess over the cap goes away only when a release finds every slot of the new cap
  free (`SemModel.StepSurplus`, `SemModel.ShrinkIsNotAbsorbed`); a cut keeps the cap exact
  if and only if it takes no more than what is free (`SemModel.CutBreaksCap`).
- "Published ids are globally unique by validation" (`internal/health/health.go:331`):
  not when server ids carry dashes. Two servers of a host can publish one id if and only
  if one id is the other after a dash, and then the table depends on the enumeration order
  (`Names.ServersCollideIff`, `RouteTable.DeterminedIff`). A server with a dash in its id
  can never be a route member (`Rules.DashedServerNeverMember`).
- "Host-address edits drop the address election" (`internal/health/health.go:258`): the edit
  is noticed by comparing comma-joined lists, so it is missed if and only if the two lists
  have the same pieces once every address is cut at its commas (`HealthModel.EditMissed`).
  A server elected at `a` can so keep an address its list no longer has
  (`HealthModel.CommaHidesEdit`).
- "One YAML file is both the store and the export format" (`internal/config/types.go:12-13`),
  so what is exported should be accepted. For one family of currencies it is not: the check
  counts the bytes of the currency as written, and U+0131 and U+017F lose one in upper case,
  so "ıa" is accepted, stored and printed as "IA", and refused from then on. The canonical form
  of a valid document validates if and only if its currency, as stored, still has three bytes
  or is not printed (`Names.CurrencyStays`, `CanonicalForm.CanonicalIsStable`,
  `CanonicalForm.CanonicalIsRefused`).
- Deleting the file: the poll takes it for "still broken in the same way" unless a failed
  edit is remembered, so the old configuration stays live for ever
  (`StoreModel.DeletionOutcome`, `StoreModel.DeletionIgnored`).
- A save is checked against the contents last observed, not against the disk, so it wipes
  out a hand edit that has not been polled yet (`StoreModel.SaveMayLoseEdit`).
- A currency saved in lower case stays live in lower case, while the file reads back in
  upper case (`StoreModel.SavedReadsBack`).
- At the top level of the document a repeated section is not an error, as a repeated key is
  anywhere else: all but the last of it might as well not be there
  (`Document.EarlierSectionsIgnored`), even if they are malformed
  (`Validation.RepeatedSectionPasses`).
- Amounts priced on sums agree with amounts priced row by row, whatever the prices, if and
  only if in no line of the query's answer one row has more cached tokens than input while
  another has fewer, and the same for reasoning tokens and output (`Summary.LineAgreesIff`,
  `Summary.GrandAgreesIff`; two rows that disagree in `Summary.PartsMatter`).

## Model

| member | source | states |
|---|---|---|
| SemModel.StepKeeps | internal/health/sem.go:61-162 | every acquire, receive, abandon, release and cap change, enabled, keeps the invariant: queue and grant history agree with the tickets and are ordered, no slot lost, nobody waits while a slot is free |
| SemModel.NoSlotLost | internal/health/sem.go:61-162 | in every run, with cap changes to and from 0: free slots never exceed the cap, held plus free never fall below it, a request waits only while at least the whole cap is held, and with no holder left every slot is free and nobody waits |
| SemModel.CapIsExact | internal/health/sem.go:61-92 | while the cap stays positive and is cut by no more than what is free, held plus free equal the cap at every moment, so at most that many requests hold slots |
| SemModel.CutBreaksCap | internal/health/sem.go:79-91 | a cut of an exact cap leaves it exact if and only if it takes no more than the free slots |
| SemModel.StepSurplus | internal/health/sem.go:96-162 | with the cap unchanged, the excess of held and free over the cap changes only on a release that finds nobody waiting and every slot free, and then drops by one |
| SemModel.SurplusNeverGrows | internal/health/sem.go:96-162 | over any run without cap changes the excess never grows and never turns negative |
| SemModel.ShrinkIsNotAbsorbed | internal/health/sem.go:60-92 | a concrete run in which a cut from 2 to 1 followed by a release and an arrival leaves two holders under a cap of one |
| SemModel.AcquireKeeps | internal/health/sem.go:96-110 | a slot is given on the spot exactly when nobody waits and one is free or the cap is off, else the caller joins the end of the queue; the excess is unchanged |
| SemModel.FirstComeFirstServed | internal/health/sem.go:37-58 | slots are granted in strictly increasing order of arrival over whole runs, the history is never rewritten, and every granted ticket is older than every waiting one |
| SemModel.StepAdvances | internal/health/sem.go:128-162 | a waiter's place in the queue never moves back, and every release moves it up or serves it |
| SemModel.BoundedWait | internal/health/sem.go:128-162 | a waiter with p others ahead has been granted a slot, or has given up, by the (p+1)-th release, whatever happens in between |
| SemModel.SettledStays | internal/health/sem.go:128-145 | a ticket out of the queue stays out, one that gave up is never granted, one that was granted never counts as given up |
| SemModel.AbandonOutcome | internal/health/sem.go:128-145 | abandon answering true means one slot, granted once and held; answering false means no grant before or in any continuation |
| FairSemaphore.FairSem.constructor | internal/health/sem.go:25-31 | a new semaphore is the fresh state of the machine and meets its invariant |
| FairSemaphore.FairSem.GrantLocked | internal/health/sem.go:33-35 | the send under the lock finds the channel empty (proved at every call), so it never blocks and no waiter gets a second token |
| FairSemaphore.FairSem.PopWaiterLocked | internal/health/sem.go:37-46 | skips exactly the cancelled waiters at the front and takes the first that is not |
| FairSemaphore.FairSem.DrainLocked | internal/health/sem.go:48-58 | serves the queue oldest first until slots or waiters run out, every waiter object left in the state its ticket says |
| FairSemaphore.FairSem.SetCapacity | internal/health/sem.go:60-92 | is one step of the machine for every cap, including to and from 0 |
| FairSemaphore.FairSem.Acquire | internal/health/sem.go:94-110 | is one step of the machine; a waiter is returned exactly when the slot was not given on the spot, and then somebody waited or nothing was free |
| FairSemaphore.FairSem.Abandon | internal/health/sem.go:128-145 | is one step of the machine; true exactly when a grant was already in the channel |
| FairSemaphore.FairSem.Wait | internal/health/sem.go:112-126 | whether the token, the context or the timer comes first, true exactly when a grant had been delivered |
| FairSemaphore.FairSem.Release | internal/health/sem.go:147-162 | is one step of the machine: the slot goes to the longest waiter, else back to the pool |
| Balancer.Registry.Add | internal/balancer/balancer.go:30-45 | moves one id's count, never below zero, and no other id's |
| Balancer.Pick | internal/balancer/balancer.go:107-121 | finds an available member exactly when there is one; it carries the least load of the available ones and is the first in preference order to do so |
| Balancer.PickIsUnique | internal/balancer/balancer.go:107-121 | that description leaves one choice only |
| Balancer.Compile | internal/balancer/balancer.go:136-148 | each configured member with its cost, its in-flight load and its target if the table has it and its server can answer |
| Balancer.Resolve | internal/balancer/balancer.go:150-164 | answers exactly when the alias has a route with a member that can serve, and then with the pick among its members, whose target is live |
| Balancer.Aliases | internal/balancer/balancer.go:166-179 | the sorted aliases of the routes that can serve |
| Balancer.ServingIff | internal/balancer/balancer.go:95-105 | a route serves exactly when one of its configured members is in the table behind a live server; loads and costs do not matter |
| Balancer.UnsetCostIsOne | internal/config/types.go:79-89 | a member given no cost is compiled as one of cost 1, a given cost counts as it is |
| Balancing.SpreadBound | internal/balancer/balancer.go:107-148 | in admission-only runs from idle where at most k-1 other admissions fall between a request's reads and its own, no available member carries more than another plus k times its own cost |
| Balancing.CountsAddUp | internal/balancer/balancer.go:30-45 | the members' connections add up to the admissions made |
| Balancing.ShareAtMost | internal/balancer/balancer.go:107-148 | with N admitted and s its share, proportional to the inverse of its cost, a member has at most (N - k) s + k connections; for k = 1 that is below N s + 1 |
| Balancing.ShareAtLeast | internal/balancer/balancer.go:107-148 | and at least (N - (m - 1) k) s of them, with m members answering; for k = 1 that is N s - (m - 1) s |
| RouteTraffic.RegistrySpread | internal/proxy/proxy.go:308-333 | through every interleaving in which requests for the route go where the policy picks on the counts they read, each count at a moment of its own, fewer than k others register between a request's reads and its registration and nothing finishes, the spread bound holds of the registry |
| RouteTraffic.RegistryShares | internal/proxy/proxy.go:308-333 | in the same traffic both share bounds hold of the registry, N being the connections it counts |
| RouteTraffic.RegistryMaxMin | internal/proxy/proxy.go:308-333 | in the same traffic with k = 1, no other distribution of as many connections has a larger least load than the registry shows |
| RouteTraffic.ResolvedPicks | internal/balancer/balancer.go:123-164 | what the resolver answers for a route compiled now is a pick in the sense of that traffic |
| RouteTraffic.RunStaysInStep | internal/proxy/proxy.go:308-333 | the registrations of such an interleaving are a run of admissions, and the registry counts it |
| Balancing.MaxMinOptimal | internal/balancer/balancer.go:107-121 | after one-at-a-time admissions from idle no other distribution of as many connections has a larger least load |
| Names.SplitThenPublish | internal/config/types.go:131-149 | every id that splits is the published id of its parts |
| Names.PublishThenSplit | internal/config/types.go:131-149 | splitting undoes publishing exactly when the base and host are not empty, the segment has no dash and the host no '@' |
| Names.BaseOfPublished | internal/config/types.go:151-158 | the base of a published id is the model it was published for if the server id has no dash; else all but the last piece of the server id goes to the model |
| Names.BaseOfPlain | internal/config/types.go:151-158 | a name without '@' is its own base |
| Names.ServersCollideIff | internal/config/types.go:131-134 | two server ids of one host can publish the same id if and only if they are equal or one is the other after a dash |
| Names.HostsSeparate | internal/config/types.go:131-134 | ids published on different hosts never collide |
| HealthModel.ElectionRule | internal/health/health.go:417-496 | the active address is kept if it answers, else the first answering address in list order is elected, else none |
| HealthModel.HealthTrace | internal/health/health.go:417-496 | over every sequence of rounds and edits: the failure count, up, the active address and the model list are what the last successful round and the failures and edits since make them |
| HealthModel.JoinsAgree | internal/health/health.go:76-90 | two lists of addresses join to the same string exactly when they have the same pieces, each address cut at its commas |
| HealthModel.EditMissed | internal/health/health.go:76-90 | an edit leaves the election standing if and only if the lists have the same pieces, and drops it otherwise |
| HealthModel.JoinInjective | internal/health/health.go:76-90 | so among lists without commas every edit is seen |
| HealthModel.CommaHidesEdit | internal/health/health.go:76-90 | an edit from "a" and "b" to "a,b" leaves "a" elected though it is no longer listed |
| HealthModel.ParseModels | internal/health/health.go:148-179 | the models reported are the usable names of the entries, and never an empty one |
| Health.ServerState.SetConfig | internal/health/health.go:76-90 | an edit of the address list drops the election; the cap change is one step of the semaphore |
| Health.ServerState.ProbeServer | internal/health/health.go:417-496 | one round: the candidates walked in order, the first that answers elected, else one failure counted and down at the third |
| Health.Manager.ProbeRound | internal/health/health.go:417-496 | one server steps, the others and all semaphores stay, and the table agrees with a scan again; models keep having names if the answers give them |
| Health.Manager.EditOne | internal/health/health.go:289-299 | editing one server leaves every other state and semaphore as it is |
| Health.Manager.Vanish | internal/health/health.go:280-287 | exactly the servers no longer wanted leave the map, nothing else changes |
| Health.Manager.Apply | internal/health/health.go:260-308 | the servers run are exactly those the hosts name, each with its host's address list and a semaphore capped at its own max_concurrency; known ones are the same objects after one edit and one cap change, new ones start down, with nothing known and all slots of a semaphore of their own free; vanished ones are dropped untouched; the table agrees with a scan again; models keep having names |
| Validated.ApplyValid | internal/health/health.go:260-308 | of a valid configuration exactly the named servers are run, each with just its addresses and just its limit |
| RouteTable.Rebuild | internal/health/health.go:312-343 | the table holds exactly the published ids of models on servers that are up with an active address, each with a server that publishes it; the id list is that set strictly sorted |
| RouteTable.TableUnique | internal/health/health.go:312-343 | when no server id is another of its host after a dash, the table depends on the server states alone, not on the enumeration order |
| RouteTable.DeterminedIff | internal/health/health.go:312-343 | the table is determined by the server states, whatever they are, if and only if no two configured server ids of a host are so related |
| RouteTable.TargetSplits | internal/health/health.go:330-337 | with dash-free server ids, splitting a published id gives back the target's base, server and host |
| RouteTable.Known | internal/health/health.go:356-382 | true exactly for table entries and for ids that some server on the host the id names last reported |
| RouteTable.KnownIsFullScan | internal/health/health.go:356-382 | filtering by that host loses nothing against a scan of every server |
| Vocabulary.ResolveName | internal/proxy/proxy.go:123-151 | a published id of a live server, or the pick of a serving route, else not available for what is known and not configured for the rest |
| Vocabulary.ListModels | internal/proxy/proxy.go:174-215 | the sorted ids of the table and aliases that serve |
| Vocabulary.VocabularyEquality | internal/proxy/proxy.go:123-215 | a name resolves to a target exactly when it is listed; it is not configured exactly when it is no route alias and no server last reported a model under it; the list has no repeats |
| Conservation.StepKeepsSound | internal/proxy/proxy.go:270-381 | every step of any request and of the environment keeps the whole invariant: counters, tickets, stages and logs agree |
| Conservation.ActorStanding | internal/proxy/proxy.go:338-378 | a request changes its standing with the ticket the step uses, to what the semaphore has made of it, and with no other ticket |
| Runs.HeldByHolders | internal/proxy/proxy.go:338-378 | the slots held on a server are as many as the requests holding one, or about to receive one |
| Runs.Conserved | internal/proxy/proxy.go:270-381 | in every interleaving and on every branch: the registry counts the requests admitted to each id and unfinished, in-flight and held slots are the requests in those stages, and a request has logged one outcome, whose status goes with its HTTP code, exactly when it is on its way out |
| Runs.NeverOverCap | internal/proxy/proxy.go:338-378 | in every interleaving no server serves more requests at once than its cap, as long as the cap stays above zero and is never cut by more than what is free |
| Conservation.KeepsRegistry | internal/proxy/proxy.go:328-333 | every step moves the registry as it moves the requests admitted to each id |
| Conservation.KeepsInFlight | internal/proxy/proxy.go:374-375 | every step moves a server's in-flight counter as it moves the requests it is serving |
| Conservation.KeepsTickets | internal/proxy/proxy.go:338-378 | after every step the ticket of each request and the phase the semaphore has it in say the same |
| Runs.IdleAgain | internal/proxy/proxy.go:328-378 | once every request has ended the registry is empty, nothing is in flight, every slot is free and nobody waits |
| Runs.OutcomeIsFinal | internal/proxy/proxy.go:84-89 | the one outcome a request logs, by finish or rejected, is never followed by another |
| Runs.OutcomeTells | internal/proxy/proxy.go:270-381 | in every run the one outcome a request has logged is explained by a step of its own, told from the outcome: 400 and 404 at the door, 429 without a slot on a server that is up, 503 without a live server, 500 if the request could not be built, ok only if the server answered below 500 and all that had to follow came through, and so on |
| Runs.StepTells | internal/proxy/proxy.go:338-372 | a step logs an outcome if and only if that outcome explains it |
| Runs.UpIsLastReport | internal/health/health.go:417-496 | a server starts out down and is up exactly if the last report on it said so |
| Outcomes.OutcomeSaysHow | internal/proxy/proxy.go:431-560 | each outcome of dispatch belongs to one kind of way out, and each way out to one outcome |
| Dispatch.Dispatch | internal/proxy/proxy.go:431-528 | for everything dispatch can meet, the way out taken, the code on record, which is the code the client was sent, and an error document unless the server answered; only a client that left is sent nothing; ok if and only if the server answered below 500 and body or stream came through |
| Dispatch.FailUpstream | internal/proxy/proxy.go:541-559 | a failed call is 499 exactly if the client left before the deadline, 504 exactly on a deadline or a timeout with the client there, else 502 |
| Dispatch.LoseSlot | internal/proxy/proxy.go:344-367 | no slot: 499 with nothing sent if the client left, 429 if the server is up, else 503 |
| Dispatch.CheckUp | internal/proxy/proxy.go:370-376 | with a slot on a server that went down, 503 |
| Dispatch.Admit | internal/proxy/proxy.go:270-317 | let in exactly with an object that names a model that resolves and no stream flag but a boolean; else 400 or 404, told to the client |
| Runs.TenSteps | internal/proxy/proxy.go:270-381 | no request takes more than ten steps of its own |
| Runs.NeverStuck | internal/proxy/proxy.go:270-381 | until it has ended a request always has a step to take: a deferred release always finds its slot held |
| StreamPump.PumpStream | internal/proxy/proxy.go:940-1045 | the client gets the rewritten lines in order, one per line that arrived up to the first failed write; an error document only if no line arrived; one row, whose status and HTTP code match what was sent and are a possible end of dispatch; the first-line age exactly when a line arrived; tokens of the last usage-bearing line, else estimates |
| StreamPump.AllForwarded | internal/proxy/proxy.go:986-1015 | nothing that arrived is dropped but the one line whose write failed |
| StreamPump.EstimateTokens | internal/proxy/proxy.go:795-799 | a quarter of the bytes, rounded up |
| Dialect.RewriteFrame | internal/proxy/proxy.go:729-792 | a line that is no data line, or does not parse, goes through byte by byte and counts for nothing; a document naming no model goes through as it came; else it is shown under the asked name; usage at the top level wins over usage in the response object |
| Dialect.PayloadOfData | internal/proxy/proxy.go:729-745 | of a data line the text after the colon is read, without the blanks around it, unless it is the end mark or mentions nothing of interest |
| Dialect.NoPayload | internal/proxy/proxy.go:729-745 | nothing is read of any other line |
| Dialect.RetitledIsShown | internal/proxy/proxy.go:671-695 | the rewritten document is the only one that differs from the server's in its model fields alone, at the top level and, in the Responses dialect, in the embedded response |
| Dialect.ClientSeesAskedName | internal/proxy/proxy.go:815-846 | whoever reads a rewritten document finds the asked name at each place the dialect has for it, every other field as the server sent it, compacted, and the same usage; required of the encoder for that document only |
| Dialect.RespondBuffered | internal/proxy/proxy.go:801-863 | one row whose status and code match what the client got; an unread body is 499, 504 or 502; a body naming no model is forwarded byte for byte, else under the asked name; tokens of the usage found after the renaming, else estimates; the outcome is that of its branch of dispatch |
| Dialect.BufferedUsageStays | internal/proxy/proxy.go:651-695 | that is the usage the server sent, if the response object written anew reads back |
| Dialect.SomeJsonReadsBack | internal/proxy/proxy.go:829-842 | what is required of the JSON library can be met for any documents |
| Names.CurrencyIs | internal/config/validate.go:666-677 | a text is a currency if and only if, blanks around it aside, it is three letters from A to Z in either case, or two letters of which one is U+0131 or U+017F |
| Names.CurrencyStays | internal/config/validate.go:666-677 | a currency accepted as written is stored in letters from A to Z, which is stable, and is accepted again exactly when it was written without the two letters that lose a byte in upper case |
| Names.CurrencyShrinks | internal/config/validate.go:666-677 | such a currency, accepted and stored as two letters |
| Patterns.IDIsItsPattern | internal/config/types.go:107-109 | an id is accepted exactly if its regular expression matches |
| Patterns.RouteAliasIsItsPattern | internal/config/types.go:111-114 | so is a route alias |
| Patterns.PriceAliasIsItsPattern | internal/config/types.go:116-122 | and a price alias of at most 64 characters |
| AddressForm.SameNormalForm | internal/config/types.go:160-166 | two addresses have one normal form if and only if what is left of them without outer blanks and one final dot agrees letter by letter up to case |
| AddressForm.NormalOfCore | internal/config/types.go:160-166 | blanks around an address and one final dot never change its normal form |
| AddressForm.OwnNormalForm | internal/config/types.go:160-166 | an address in lower case without them is its own |
| AddressForm.SameLetter | internal/config/types.go:160-166 | within ASCII, up to case means the letters A to Z |
| Strings.LessIsBefore | internal/health/health.go:341 | the order of all sorted lists is that of the first difference, the shorter first |
| Sorting.SortStable | internal/config/canonical.go:69-91 | what has the same key stays in its order |
| Rules.DashedServerNeverMember | internal/config/validate.go:641-660 | a member id published by a server with a dash in its id is never accepted as naming that server |
| Validation.Validator.MapEntries | internal/config/validate.go:147-164 | a violation exactly when a key is unknown or repeated; each allowed key is read where it first stands |
| Validation.Validator.ServerList | internal/config/validate.go:254-358 | no violation exactly when every server meets its rules and ids and ports are unique on the host, and then the list is what the document says |
| Validation.Validator.HostList | internal/config/validate.go:174-252 | no violation exactly when every host meets its rules, ids are unique and normalised addresses are unique over all hosts; then no address stands twice in any two spellings, on one host or on two; whatever else is wrong, a host id or an address that stands twice is reported at both places, each naming the other, an address repeated on one host at the second |
| Validation.Validator.PriceEntry | internal/config/validate.go:411-497 | no violation exactly when the entry meets its own rules; the names it claims are recorded whatever else is wrong |
| Validation.Validator.KnownServer | internal/config/validate.go:513-526 | searching the first host with the id only loses nothing when host ids are unique |
| Validation.Validator.RouteSection | internal/config/validate.go:528-664 | no violation exactly when every route meets its rules, aliases are unique up to case, and members are distinct and name configured servers; an alias that stands twice is reported at both places |
| Validation.Validator.CrossCheck | internal/config/validate.go:128-140 | no violation exactly when no price name is claimed twice; a name claimed twice is reported at both places |
| Validation.ParseAndValidate | internal/config/validate.go:80-145 | no violations if and only if the document has the right shape and what it says meets the declarative rules, and then the configuration is what it says; a price name claimed twice, a host id, an address or a route alias that stands twice is reported at both paths, whatever else is wrong |
| Document.NullField | internal/config/validate.go:166-172 | a field that is null says what one that is missing says, but for a real number, which it gives as 0 |
| Document.EarlierSectionsIgnored | internal/config/validate.go:104-116 | without all but the last of each repeated section the document has each section once, the same shape, and says the same |
| Validation.EarlierClaimsIgnored | internal/config/validate.go:104-116 | and claims the same names |
| Validation.RepeatedSectionPasses | internal/config/validate.go:104-116 | a document with a malformed hosts section and an empty one after it is valid, without the second it is not |
| Validated.ValidatedNames | internal/config/validate.go:174-252 | a valid document has unique ids as the health manager keys them and aliases as the resolver looks them up |
| Validated.DocumentVocabulary | internal/health/health.go:260-343 | the servers of a valid document, with a table that agrees with them, meet all that name resolution relies on; without dashes in server ids the table and list could not be others |
| Canonical.EmitThenParse | internal/config/canonical.go:93-145 | reading back what is printed gives the configuration with defaults written out and empty sections dropped, for every configuration, whatever the digits look like; the shape is right exactly if the currency is |
| Canonical.FieldsAreWritten | internal/config/validate.go:186-196 | no field of a server, host, price entry, route or member is let in that is never written, but the one that was removed |
| CanonicalForm.NormalizeTwice | internal/config/canonical.go:69-91 | normalising is idempotent |
| CanonicalForm.NormalizedProper | internal/config/canonical.go:69-91 | normalising keeps every rule of the validator |
| CanonicalForm.PrintTwice | internal/config/canonical.go:93-145 | printing, reading and printing again prints the same |
| CanonicalForm.CanonicalIsStable | internal/config/canonical.go:93-145 | the canonical form of every valid document is its own canonical form, and validates again if and only if its stored currency has three bytes or is not printed |
| CanonicalForm.CanonicalIsRefused | internal/config/canonical.go:93-145 | a valid document whose canonical form is not |
| CanonicalForm.OrderDoesNotMatter | internal/config/canonical.go:69-91 | hosts, servers, price entries, aliases and routes may be listed in any order: the canonical form is the same |
| CanonicalForm.MemberOrderMatters | internal/config/canonical.go:50-53 | two routes of one name print alike exactly when their members, costs written out, are the same in the same order |
| Printer.Draft.Normalize | internal/config/canonical.go:72-91 | sorting in place comes to the normalised configuration, in ascending order at every level |
| Printer.Draft.Canonical | internal/config/canonical.go:95-145 | the loops print the draft as it stands after normalising, which is the canonical tree |
| StoreModel.StoreAgreement | internal/config/store.go:86-174 | over every run of edits, polls and saves: the live snapshot carries the digest last observed, the live configuration is normalised, prints to a form that validates exactly if its currency has three bytes or is not printed, and so does the file written of it, if that reads back with its shape; and it says what the file observed says, if valid, exactly when its currency is upper case |
| StoreModel.SomeCodecReadsBack | internal/config/store.go:141-174 | what is required of the YAML library for the configurations saved can be met in every run |
| StoreModel.PollOutcome | internal/config/store.go:231-277 | a changed valid file becomes what the live configuration says, an invalid one changes nothing but the digests, the file is never touched |
| StoreModel.DeletionOutcome | internal/config/store.go:231-277 | a deleted file empties the live configuration exactly when a failed edit is remembered |
| StoreModel.DeletionIgnored | internal/config/store.go:231-277 | load a valid file, delete it: however often it is polled, the old configuration stays live |
| StoreModel.SaveGuard | internal/config/store.go:141-174 | a save goes through exactly if it carries the digest of the live snapshot, the very bytes about to be written validate, and they can be written; then file and live configuration are what was saved; refused, it changes nothing |
| StoreModel.SaveMayLoseEdit | internal/config/store.go:141-174 | a hand edit not yet polled is wiped out by a save; polled first, it makes the same save stale unless it changed nothing |
| StoreModel.SavedReadsBack | internal/config/store.go:150-165 | a saved configuration, if it reads back at all as what was printed, says what its file says exactly when its currency is in upper case |
| StoreModel.SaveIsSettled | internal/config/store.go:209-215 | the store's own save is never taken for a hand edit, and a restart after it comes up with what was saved exactly when its currency is in upper case |
| Store.ConfigStore.Load | internal/config/store.go:83-116 | the start-up step of the machine; an unreadable file changes nothing |
| Store.ConfigStore.Poll | internal/config/store.go:231-277 | the poll step of the machine |
| Store.ConfigStore.Save | internal/config/store.go:141-174 | the save step of the machine: the draft is printed, the bytes are read and validated again before they are written; accepted exactly under that guard, and a refused save leaves store and file alone |
| Settings.AppliedAlone | internal/config/settings.go:220-326 | a field is accepted exactly when its text means a value the bounds allow, whatever the other fields hold; it takes that value and no other field moves |
| Settings.Manager.Load | internal/config/settings.go:96-116 | the load step: live settings are what the table says key by key, unreadable or out-of-range text passed over for the default |
| Settings.Manager.Update | internal/config/settings.go:118-169 | the patch step, accepted exactly when every key is known and every value that is not blank reads within bounds, and persisting works: then table and live values take the patch together; refused, neither changes; the generation moves exactly when the live settings do |
| Settings.SameGeneration | internal/config/settings.go:88-169 | in every sequential run the generation never goes back, and at two moments with the same generation the live settings are the same |
| Settings.BlankPatch | internal/config/settings.go:118-169 | a value of nothing but blanks leaves its key alone and is not stored; only of the debug model it is a value, the empty one |
| Settings.DefaultsAreDocumented | internal/config/settings.go:39-55 | writing the documented default of a key is writing its default |
| Settings.SyncedInBounds | internal/config/settings.go:220-326 | settings that agree with the table are within every bound |
| Settings.AlwaysInBounds | internal/config/settings.go:96-169 | from the defaults on, even if no load ever reads the table, the live settings are within bounds |
| Settings.LiveIsStored | internal/config/settings.go:96-169 | in every sequential run starting with a load that reads the table, whatever later loads fail, the live settings are within bounds and equal to what a load of the table would give |
| PriceIndex.NewPriceIndex | internal/usage/query.go:232-248 | the index answers every name as a scan of the entries does |
| PriceIndex.ScanFinds | internal/usage/query.go:256-258 | that is the last entry claiming the name, and nothing exactly when none does |
| PriceIndex.UniqueNamesFindTheEntry | internal/usage/query.go:232-258 | when no name is claimed twice the index finds the one entry, under each of its names |
| PriceIndex.UnitPrices | internal/usage/query.go:260-282 | what one token of each kind costs: cached and reasoning tokens their own price if they have one; with additivity this settles every amount |
| PriceIndex.NoMoreThanAll | internal/usage/query.go:260-282 | more cached or reasoning tokens than there are count as all of them |
| PriceIndex.AmountAdds | internal/usage/query.go:260-282 | the amount of a sum is the sum of the amounts, whatever the prices, if and only if neither input beyond cached nor output beyond reasoning is positive in one part and negative in the other |
| PriceIndex.PairGap | internal/usage/query.go:260-282 | by how much they differ otherwise, at any prices |
| Summary.Summarise | internal/usage/query.go:400-485 | one group per final key, in order, with the sums over its lines, its members, and whether some of it is priced and some is not; grand amount, flags and unpriced names over all lines |
| Summary.LineCountsRows | internal/usage/query.go:376-392 | a line counts its rows and, among them, those whose tokens were estimated |
| Summary.LineAgreesIff | internal/usage/query.go:376-425 | the amount of a line is the sum of the amounts of its rows, whatever the prices, if and only if the line is one-sided |
| Summary.GrandAgreesIff | internal/usage/query.go:376-425 | the grand totals are those of the rows, with every price list, if and only if every line is |
| Summary.GroupIsItsRows | internal/usage/query.go:376-450 | with such lines, each group's counts and amount are the sums over its rows, priced one by one |
| Summary.PartsSuffice | internal/usage/query.go:376-450 | that holds of every group and of the grand totals, in every grouping, when no row has more cached tokens than input or more reasoning tokens than output |
| Summary.PublishedIsPriced | internal/usage/query.go:284-300 | with unique names, usage of a model published under an id is priced by the entry that claims the model and grouped under that entry's name; with none it has no price and is grouped by the model |
| Summary.SamePair | internal/usage/query.go:323-335 | two rows share a line exactly if they are of one model and agree in what is grouped by |
| Summary.SameGrandTotal | internal/usage/query.go:376-485 | the grand amount is the same for all groupings of the same rows, if the lines by model are one-sided |
| Summary.GroupsAddUp | internal/usage/query.go:376-485 | the groups add up to the grand totals and to the rows |
| Summary.NoGroupIsMixed | internal/usage/query.go:418-445 | grouped by model, no group is both priced and unpriced, unique names or not |
| Summary.OnePricePerGroup | internal/usage/query.go:418-426 | with unique names, all that is priced in a group by model is priced by the entry the group is named after |
| Summary.PartsMatter | internal/usage/query.go:376-425 | two rows, their line in the answer, and a price list with which the rows amount to more |

## Left out

- HTTP, sockets, TLS, SQLite, goroutine scheduling and clocks: they appear as events, parameters or rows in the order the model is given them.
- Health.Manager.Apply: starting and stopping the probe goroutines of a server is left out; of its configuration only the addresses and the cap are kept.
- Health.Manager.ProbeRound: a round with its table rebuild is one whole step, so overlapping rebuilds are not covered.
- FairSemaphore.FairSem.Wait: parking is not modelled; which of token, context and timer comes first is a parameter.
- Runs.Conserved: the server and alias a request is aimed at are arbitrary, which covers every choice the resolver could make, and a stream or body is one step; a server once started is never removed, as requests keep the state they were aimed at.
- StreamPump.PumpStream: the upstream is assumed to end or fail sooner or later; how a line is rewritten is a parameter, for which Dialect.FrameOf stands in either dialect.
- Dialect.RewriteFrame: JSON text, the shortcut that skips frames without certain keys, and what a usage object or a text field is worth are parameters.
- Dialect.BufferedUsageStays: the encoder is assumed to change of a value no more than blanks and escapes.
- Dispatch.Dispatch: what is sent to the server (the renamed model, the usage option, the credentials) is left out; the call itself is an event.
- Dispatch.Admit: the method check and the size limit, which turn a request away before its body is looked at, are left out.
- Validation.ParseAndValidate: paths and kinds of violations are kept, texts, line numbers and the order of violations within one entry are not; YAML text, aliases and tags are outside, a document is the tree the YAML library hands over.
- Canonical.EmitThenParse: the digits of printed numbers are left open, as no number is read back as text.
- StoreModel.SavedReadsBack: the YAML library is assumed to read back, of each configuration that is saved, a document that says the same, not that it has the same shape; a digest is assumed to stand for one contents only.
- Store.ConfigStore.Load: the text of the last error is left out.
- Balancer.Resolve: the proxy without a balancer or a store is left out.
- Settings.AppliedAlone: reading durations, sizes and whole numbers from text is a parameter.
- Summary.Summarise: percentiles, filters and the database's own grouping are left out; the lines it is given are assumed to be the sums per group and model. Amounts and costs are reals, so rounding is not modelled.
- The lower case of letters beyond ASCII is left open; of upper case beyond ASCII only the two letters that matter to a currency are modelled.
- Races between concurrent settings updates, and between the read of a poll and a save, are excluded by whole steps.
- The cached transports, dashboards, authentication, logging, CSV export, batch writing and pruning are not modelled.
