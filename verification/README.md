# puma-dev: a verified model

puma-dev routes requests by host name to applications it launches on demand, shuts them down when
they idle, and streams its events to websocket clients. This project models the four parts of it
that carry state or non-obvious string reasoning, and proves what they keep:

- **The application pool** (`dev/app.go`). `Lookup.dfy` holds what one locked region does to the map
  of running applications, as functions of the map; `AppPool.dfy` is the pool and its instances as
  objects with the same methods, proved against those functions; `Aliases.dfy` is about several links
  to one application. `Lifecycle.dfy` interleaves lookups, the goroutines of every instance, idle
  eviction and purges, with the pool lock explicit; `GoroutineRuns.dfy` (what each goroutine does),
  `CanonicalRuns.dfy` (who owns a name), `AliasRuns.dfy` (names for one application) and
  `PurgeProgress.dfy` are about its runs.
- **Host routing** (`dev/http.go`, `cmd/puma-dev/main.go`). `Domains.dfy` has the sort order and
  `removeTLD`; `Routing.dfy` composes it with the search for an application.
- **The websocket hub** (`dev/websockets`). `Hub.dfy` is the hub and its clients as objects, and
  `HubEvents.dfy` says what a list of events means for a client. `HubProtocol.dfy` interleaves the event
  loop with the writers; `HubRuns.dfy` proves what whole runs keep, `ClientRuns.dfy` what they mean for
  one client. `Subscriptions.dfy`, `Mailbox.dfy` and `Frames.dfy` hold the parts they share.
- **The line buffer** (`linebuffer/linebuffer.go`), in `LineBuffer.dfy`.

`Text.dfy` has the string functions and lemmas, and `Options.dfy` the option type, that they share.

## How it is modelled

- File system answers, launch outcomes, clock readings, signal outcomes, the order in which a map is
  ranged over, and every scheduling decision are arbitrary: parameters, or choices of the step taken.
- In the interleaved models a state is a value and a step a value; `Enabled` and `Apply` say when a
  step can be taken and what it does. A lookup that finds an entry takes the lock in one step (`Begin`,
  which launches) and returns in another (`End`, which binds the keys), so goroutines run in between;
  lookups that end in an error change nothing and are not steps. Every theorem about runs is about
  every finite sequence of enabled steps from the empty state, of any length.
- Instances and clients are never reused: an instance is numbered at its launch, a client at its
  registration. The sets and sequences that only the theorems need (`removed`, `since`, `seen`,
  `sent`, `taken`, `framed`, `closes`) are histories; no step reads them.
- The tag of a canonical name, eight hexadecimal digits of the SHA-1 of a link target, is an arbitrary
  function of the target. Theorems that need it to tell targets apart ask for that, of the targets in
  play only.
- Strings and payloads are sequences of Unicode characters.
- The page splits a frame at newlines. `FrameRoundTrip` says that this gives back the messages exactly
  when none of them has a newline; broadcast payloads have none, nor has the one reply the server sends,
  so `FramesAlwaysSplitBack` holds of all frames of this program.

## Where the code does not do what one would expect

One application should have one live instance. It can have several, because one directory can be
requested under names that do not lead to the same canonical name, because `maybeIdle` evicts by name,
and because an evicted instance is not necessarily one that ends:

- A directory and a link to it have different canonical names, and so have links that spell its path
  differently, since the text of the link is what is hashed. Requested under both names it gets two live
  instances, with no removal and no idle tick: `TwoNamesTwoInstances` for any such names,
  `DirectoryAndLinkSplit` for a directory `foo` and a link `bar` to it.
- The idle monitor of an instance that has already left the pool can evict the one that replaced it.
  `StaleIdleSplitsAnApp` is a run in which two links to one target then lead to two live instances;
  `StaleIdleOrphansAnApp` one in which the evicted instance has no other key, so that it stays alive
  where no request can reach it, beside its successor.
- An instance that its own monitor idles is evicted before it is signalled and removed. Until then, a
  request through another link launches a second one: `IdleWindowSplitsAnApp`. If the signal cannot be
  sent, the first keeps running under its alias: `FailedIdleSplitsAnApp`.

Of one canonical name there is no other way. In every run, an instance keeps its name exactly as long as
no removal of it and no idle tick of an instance of that name happens, unless a link of that very name
gives it back (`BoundExactly`); two holders of one name are one instance exactly then
(`OneInstancePerName`); and beside the holder, the instances of that name not removed are exactly the
ones idle ticks have evicted (`LiveBesideOwner`). For a single idling, any lookups and the removal,
`StaleIdleExactly` says when it harms another instance: exactly when the name is held by another
instance of that name, to which no link gives it back.

Of any two requests, `OneInstanceExactly` has the condition: they get one instance if and only if their
names are the same or links of the same text, and, going back to the lookups that made these answers,
the earlier one's instance was neither removed nor evicted at the later.

A removed instance may still be going down; once a purge has waited for it, its process has exited
(`PurgeEmpties`).

## Model

| member | source | states |
|---|---|---|
| LineBuffers.LineBuffer.Append | linebuffer/linebuffer.go:18-38 | the buffer after an append represents the history extended by the line, size 0 becoming 1024; a full buffer overwrites exactly the oldest slot |
| LineBuffers.SlotHoldsNewest | linebuffer/linebuffer.go:26-35 | once full, slot i holds the newest line whose index in the history is congruent to i modulo the size |
| LineBuffers.OverwriteRefinesAppend | linebuffer/linebuffer.go:29-35 | overwriting the slot at the cursor and wrapping the cursor keeps "the last size lines, rotated", and the cursor equal to the history length modulo the size |
| LineBuffers.ShowSlots | linebuffer/linebuffer.go:57-69 | one loop of Do goes on showing the lines in order from where the walk stands, stops right after the first failure, and the callback's own variable has grown by what its successful calls are worth |
| LineBuffers.Closure.Call | linebuffer/linebuffer.go:77-84 | each call is recorded and answered from all calls so far, and the captured total is the sum over the successful ones |
| LineBuffers.LineBuffer.Do | linebuffer/linebuffer.go:40-72 | the callback sees the retained lines oldest first across the wrap point, all of them or up to and including the first that fails, whose error is returned |
| LineBuffers.WalkUnique | linebuffer/linebuffer.go:40-72 | that description determines both what is shown and what is returned |
| LineBuffers.LineBuffer.WriteTo | linebuffer/linebuffer.go:74-87 | the total, kept by the callback during the walk, is the sum of the counts of the writes that succeeded, and their summed length for a writer that reports full length |
| LineBuffers.CountsAddUp | linebuffer/linebuffer.go:77-84 | counts reported by a writer of full lines add up to the length of the lines |
| LineBuffers.FillAndWalk | linebuffer/linebuffer.go:18-72 | for every size and every history of appends, a walk shows the newest lines in order, as many as the size says, 1024 for size 0, or all if there are fewer |
| Domains.Swap | cmd/puma-dev/main.go:28 | exchanges two elements in place and keeps the elements |
| Domains.SwapsKeepElements | cmd/puma-dev/main_linux.go:36 | whatever swaps the sort makes, the domains stay the same with their multiplicities |
| Domains.LessIsMoreLabels | cmd/puma-dev/main.go:29-31 | domains with more labels come first |
| Domains.CanBeSorted | cmd/puma-dev/main_linux.go:36 | for every list of domains there are swaps that put it into that order |
| Domains.LongerHasMoreDots | cmd/puma-dev/main.go:29-31 | of two domains that end one host at a dot, the longer ends with the shorter and has strictly more dots |
| Domains.FirstIsLongest | dev/http.go:116-121 | in an order by decreasing dot count, the first domain that matches is the longest that does |
| Domains.SortedMatchIsLongest | cmd/puma-dev/main_linux.go:36 | after any swaps that leave the domains in order, the first match is the longest configured domain ending the host, and there is none only if no domain matches |
| Domains.OrderDoesNotMatter | cmd/puma-dev/main_linux.go:36 | the stripped name is the same for every listing of the domains and every way the unstable sort breaks ties |
| Domains.EndsWithDomainExactly | dev/http.go:118 | a host ends with a domain exactly when it is a name, a dot and the domain |
| Domains.RemoveTLD | dev/http.go:97-130 | the method with its early-returning loop computes the stripped name for every host and every list of domains |
| Domains.StripsLongestDomain | dev/http.go:97-121 | a name followed by a dot and its longest configured domain, with or without a port, strips to the name, unless the host ends in .xip.io or .nip.io |
| Domains.StripsUnlisted | dev/http.go:123-129 | with no configured domain matching and no .xip.io or .nip.io at the end, with or without a port, exactly the last label is dropped, and a host of one label stays |
| Domains.DropPortOf | dev/http.go:98-103 | a host with at most one colon and no bracket loses exactly its port |
| Domains.DropPortElsewhere | dev/http.go:98-103 | a bracketed address loses brackets and port, other hosts with several colons stay as they are |
| Domains.SplitHostPortExactly | dev/http.go:98-103 | host:port without other colons and [host]:port are split into host and port, and nothing else is |
| Domains.DropPortExactly | dev/http.go:98-103 | so a host loses its port or its brackets and port in exactly these forms, and is left as it is in any other |
| Domains.WildcardRoundTrip | dev/http.go:105-114 | a name of any number of labels followed by any four labels and xip.io or nip.io, with or without a port, strips to the name |
| Domains.WildcardStrips | dev/http.go:105-114 | of every host ending in .xip.io or .nip.io, with or without a port, exactly the last six labels and the dot before them go, and nothing is left of one that has no more |
| Domains.StripsExactly | dev/http.go:97-130 | for every host, every list of domains and every outcome of the sort, what is left is the host less the last six labels under a wildcard-DNS service, less its longest configured domain, or less its last label |
| Domains.WildcardEmpty | dev/http.go:107-111 | the empty name results exactly when no more than six labels are there, or seven of which the first is empty |
| Lookup.UnknownExactly | dev/app.go:464-515 | "unknown app" is answered exactly when the name is not mapped, nothing is at its path, and nothing at its expansion if it has a hyphen |
| Lookup.ProbeFailedExactly | dev/app.go:475-510 | an error of the file system is answered exactly when it is met at the path, or at the expansion with nothing at the path |
| Lookup.FoundExactly | dev/app.go:517-552 | for every answer of the file system with something found: the result, whether it launches, and the whole map after, which has the canonical key and, if the target is called differently, the requested one |
| Lookup.Bind | dev/app.go:525-552 | a successful lookup binds the canonical name and, for a link called differently from its target, the requested name, and no other key |
| Lookup.LookupExtends | dev/app.go:456-555 | for any file system answers, old entries keep their value, at most the requested and the canonical key are added, errors change nothing, and only a missing canonical name leads to a launch |
| Lookup.RepeatedLookup | dev/app.go:464-467 | a successful lookup made again starts nothing, changes nothing and gives the same instance |
| Lookup.Remove | dev/app.go:596-605 | every key of the instance is dropped and no other entry touched |
| Lookup.RemoveAgain | dev/app.go:103-146 | a second removal, by watch after Kill, changes nothing, also when a replacement of the same name is mapped by then |
| Lookup.LookupKeepsCanonical | dev/app.go:533-552 | if every mapped instance is mapped under its own name, it still is after a lookup |
| Lookup.RemoveKeepsCanonical | dev/app.go:596-605 | and after a removal |
| Lookup.IdleLookupsRemove | dev/app.go:439-451 | evicting an instance that owns its name, then any lookups, then removing it, gives that invariant back |
| Lookup.LookupsExtend | dev/app.go:456-555 | over any run of lookups, entries only get added |
| Lookup.LostNameReturns | dev/app.go:533-552 | over any run of lookups, an instance that has lost a name gets it back exactly when one of them goes through a link of that name, while it is free, to a canonical name the instance is mapped under |
| Lookup.HolderEvicted | dev/app.go:439-451 | another holder of the evicted name is back under it, after any lookups and the removal, exactly when a link of that name gives it back, and is mapped at all exactly when it had another key |
| Lookup.StaleIdleExactly | dev/app.go:439-451 | evicting by name, any lookups, and removing an instance leave every other instance mapped and under its own name if and only if the name was free, its own, a mere alias of its holder, or given back to the holder by a link of that name; the holder stays mapped if and only if it has another key |
| Aliases.ResolveOf | dev/app.go:469-531 | against a fixed file system, the canonical name is that of the stat-able target of the link found, or the requested name if there is none |
| Aliases.LookupByFiles | dev/app.go:469-552 | the same told from the files: path first, then the parts between hyphens as directories; the link target's base name and tag as canonical key, and the requested name bound exactly if it differs from that base name |
| Aliases.UnknownByFiles | dev/app.go:475-515 | "unknown app" exactly when the name is not mapped and there is no file at its path, nor, with a hyphen in it, at its parts as directories |
| Aliases.CanonicalNamesDiffer | dev/app.go:521-526 | canonical names agree exactly when base name and tag do |
| Aliases.LookupsKeepCoherent | dev/app.go:517-552 | in a run of lookups, every requested name leads to the instance under its canonical name, which carries that name |
| Aliases.AnswerIsCanonical | dev/app.go:533-552 | an answer through a link is the instance now mapped under the canonical name of its target, and the one that was there if there was one |
| Aliases.AliasCoherence | dev/app.go:464-552 | in any run of lookups against a fixed file system, two requests through links get one instance if and only if the links have one target, and a target once answered is never started again |
| AppPools.PruneSub | dev/app.go:557-564 | dropping the first label makes a name strictly shorter, so the search terminates |
| AppPools.PrunedSuffixes | dev/app.go:557-564 | dropping first labels visits exactly the suffixes at dots |
| AppPools.SearchIsSound | dev/app.go:566-594 | with the map and the file system different at every probe: the suffix the search ends at was answered otherwise than "unknown app" when probed, be it by an application or an error, and every longer one was answered that; "default" only if all were |
| AppPools.StopsAtLongestKnown | dev/app.go:566-594 | in a pool that holds still, the search ends at the longest suffix at a dot whose answer is not "unknown app", and at "default" only if there is none |
| AppPools.AppPool.FindAppByDomainName | dev/app.go:566-594 | with other requests between the probes, it terminates, and its result and its effect on the map it finds last are those of the one lookup the search ends at, so unknown probes change nothing and at most one instance is launched |
| AppPools.AppPool.LookupApp | dev/app.go:456-555 | result and map are those of the lookup function for every answer of the file system; a launched instance is new and carries the canonical name; the error of the link-target stat never surfaces |
| AppPools.AppPool.Launch | dev/app.go:533-541 | a directory is launched and a file becomes a proxy, under the canonical name |
| AppPools.AppPool.RemoveApp | dev/app.go:596-610 | deleting while ranging, in any order, removes exactly the keys of the instance, and the closing callback is called with it, mapped or not |
| AppPools.AppPool.MaybeIdle | dev/app.go:439-451 | the key of that name goes exactly when the instance has been unused for longer than the idle time |
| AppPools.App.Kill | dev/app.go:86-108 | the instance leaves the pool, and its closing is reported, only if the signal could be sent |
| AppPools.App.Watch | dev/app.go:131-157 | whatever becomes of the signal, the instance ends up unmapped and no other entry changes, its closing is reported once for each removal, and an error comes back exactly if the output ended first |
| AppPools.App.IdleMonitor | dev/app.go:159-174 | it idles at the first tick past the idle time unless the tomb is dying before, and only then evicts and kills the instance, reporting its closing if the signal could be sent |
| Routing.EndToEnd | dev/http.go:132-146 | a host made of a name and its longest configured domain, with or without a port, gets the answer of a suffix of the name that was not "unknown app" when probed, all longer ones having been that, whatever happens to the pool during the search; "default" only if all were |
| Routing.AnyHostEndToEnd | dev/http.go:97-146 | whatever the host, with or without a port, the answer is that of such a search for what it is stripped to |
| Routing.WildcardEndToEnd | dev/http.go:105-114 | the same through a wildcard-DNS host, with or without a port, whatever domains are configured |
| Routing.StillPoolAnswer | dev/app.go:566-594 | in a pool that holds still the answer is that for the longest known suffix, and "default" only if there is none |
| Routing.SubdomainsShare | README.md:324 | an application answers for all its subdomains that have none of their own |
| Lifecycle.StepKeeps | dev/app.go:86-210 | every step of every interleaving keeps the pool invariant, and keeps killed tombs killed, dead ones dead and removed instances removed |
| Lifecycle.LocalKeeps | dev/app.go:110-174 | a goroutine's step keeps a dead tomb killed, lets watch end without error only in a killed tomb, and leaves readyChan open while the boot probe runs |
| Lifecycle.LookupIsAtomic | dev/app.go:456-555 | goroutines running between a lookup's launch and its return cannot be noticed: it applies the lookup function once to the map it found, and nothing else that takes the lock happens in between |
| Lifecycle.RemovalIsPermanent | dev/app.go:596-610 | in every run, once any goroutine has removed an instance, no key maps to it and no lookup returns it, ever |
| Lifecycle.WatchOverIsGone | dev/app.go:144-157 | the same once a launched application's watch is past its last removal |
| Lifecycle.OutForGood | dev/app.go:456-555 | removed or not, an instance that is not mapped and not being launched is never mapped or answered with again |
| Lifecycle.ReadyClosedOnce | dev/app.go:337-362 | in every run readyChan of an instance is closed at most once, and never when closed already |
| Lifecycle.PurgeEmpties | dev/app.go:621-642 | when a purge returns, every instance of its snapshot is dead, the process of every launched one has exited, and it is out of the pool for good |
| GoroutineRuns.GoroutineProgram | dev/app.go:110-196 | in every run, a step of watch, of the idle or restart monitor, of the boot probe or of a proxy is possible if and only if it comes next in that goroutine's program after the steps it has taken, and what it waits for (a killed tomb, the exit of the process, the lock) has come |
| GoroutineRuns.SignalDecides | dev/app.go:92-104 | whoever calls Kill, the next thing it does after signalling is the removal if and only if the signal was sent |
| GoroutineRuns.RemovalFollowsSignal | dev/app.go:92-104 | before its process has been waited for, an instance is removed only by a goroutine whose own signal has just been sent |
| GoroutineRuns.SignalledIsRemoved | dev/app.go:143-145 | when watch waits for the process of an instance it has signalled, the instance has been removed |
| GoroutineRuns.RemovedExactly | dev/app.go:596-605 | the removed instances are those a goroutine has called remove for |
| GoroutineRuns.FlagsExactly | dev/app.go:337-362 | in every run, readyChan is closed exactly when the boot probe has connected, and the process has exited exactly when there was such a step |
| GoroutineRuns.FinishedExactly | dev/app.go:331-362 | a tomb is dead exactly when each of its goroutines has taken a step it returns with |
| GoroutineRuns.DyingExactly | dev/app.go:131-157 | a tomb is killed exactly when a purge has killed it, watch has returned after the output ended, or the restart monitor or the boot probe has returned an error |
| GoroutineRuns.LaunchedAsAsked | dev/app.go:533-541 | every instance of a run was launched by a lookup that found no entry, under the canonical name, as an application for a directory and as a proxy for a file |
| GoroutineRuns.PurgeKillsMapped | dev/app.go:621-637 | the instances a purge kills are exactly those mapped when it began |
| GoroutineRuns.PurgeProgram | dev/app.go:632-640 | in every run, a purge can kill its next instance until it has killed all, and then, and only then, wait for its next one once that is dead |
| GoroutineRuns.RequestsAreServed | dev/app.go:456-467 | in every run, with the lock free every mapped name is answered from the map, every other one that is found begins a lookup and a purge can begin; a lookup begun can return |
| GoroutineRuns.ProcessCanExit | dev/app.go:145 | a process can exit at any time, once |
| CanonicalRuns.StepBound | dev/app.go:439-451 | a step leaves an instance mapped under its own name if and only if it gives the name back, or it was so mapped and the step is neither its removal nor an idle tick of an instance of its name |
| CanonicalRuns.BoundExactly | dev/app.go:439-451 | an instance that owns its name at some point of a run owns it at a later one if and only if every removal of it and every idle tick of an instance of its name in between was made good by a lookup through a link of that name |
| CanonicalRuns.BoundUnlessEvicted | dev/app.go:439-451 | in every run, every instance whose launch has returned owns its name if and only if it has been neither removed nor evicted by an idle tick |
| CanonicalRuns.CanonicalButEvicted | dev/app.go:439-451 | in every run every mapped instance is mapped under its own name, except those evicted by an idle tick |
| CanonicalRuns.OneInstancePerName | dev/app.go:533-552 | two instances that own one name at two points of a run are the same if and only if the first kept the name in between |
| CanonicalRuns.LiveBesideOwner | dev/app.go:439-451 | of the instances of a name not removed, exactly the evicted ones are others than its owner |
| CanonicalRuns.LaunchFindsNoOwner | dev/app.go:533-541 | when a further instance of a name is launched, all before it have been removed or evicted |
| CanonicalRuns.StaleIdleSplitsAnApp | dev/app.go:446 | a run with a stale idle tick after which two links to one target lead to different live instances |
| CanonicalRuns.StaleIdleOrphansAnApp | dev/app.go:446 | a run with a stale idle tick after which a live instance, never removed, is out of reach for good beside its live successor |
| CanonicalRuns.FailedIdleSplitsAnApp | dev/app.go:98-105 | a run in which every idle tick is of an instance that owns its name, and two links to one target lead to different instances, neither of them dying or exited |
| CanonicalRuns.IdleWindowSplitsAnApp | dev/app.go:166-167 | a run of lookups and one idle tick, of an instance that owns its name, in which two links to one target lead to different live instances before the first is signalled |
| AliasRuns.RunKeepsSound | dev/app.go:517-552 | in every run against a fixed file system, what is mapped under a requested name or its canonical name, and what is being launched for it, carries that canonical name |
| AliasRuns.AnswerIsOfTarget | dev/app.go:464-552 | in every such run every answer is an instance of what the requested name leads to, not removed, and one that was looked up owns its name |
| AliasRuns.OneTargetOneInstance | dev/app.go:464-552 | over any interleaving, any two answers: names that do not lead to the same never get one instance, and names that do get the same one if and only if it has meanwhile been neither removed nor evicted, unless the later answer is itself evicted, which no answer that is looked up is |
| AliasRuns.AnswerWasLookedUp | dev/app.go:464-552 | in every run, an instance found under a requested name was the answer to an earlier lookup of that name |
| AliasRuns.OneInstanceExactly | dev/app.go:464-552 | any two answers of any run go back to two lookups of the same names and instances, and are one instance if and only if the names lead to the same and the earlier lookup's instance was neither removed nor evicted at the later |
| AliasRuns.OneLinkOneInstance | dev/app.go:533-552 | a link whose target has another base name gives the same instance twice if and only if that has not been removed in between, evicted or not |
| AliasRuns.LaunchesExactly | dev/app.go:533-541 | a request launches an instance if and only if all instances of what it leads to have been removed or evicted |
| AliasRuns.TwoNamesTwoInstances | dev/app.go:517-537 | any two names that do not lead to the same, though it may be one directory, get two live instances in a run without removals and idle ticks |
| AliasRuns.DirectoryAndLinkSplit | dev/app.go:517-537 | a directory and a link to its very path are such names |
| PurgeProgress.NextMoveDescends | dev/app.go:110-210 | a killed instance that is not dead has a step to take that brings it closer to its end |
| PurgeProgress.CanDie | dev/app.go:621-642 | from every state that keeps the invariant, a killed instance can reach the death of its tomb, whoever holds the lock |
| PurgeProgress.PurgeCanReturn | dev/app.go:621-642 | from every state of every run, every purge begun can be brought to its return: nothing it waits for is ever stuck |
| Subscriptions.QueryIsMembership | dev/websockets/client.go:193-205 | IsSubscribed answers "wildcard or some tag is subscribed", and the entries it inserts change no subscription |
| Subscriptions.QueryInserts | dev/websockets/client.go:193-205 | the table after a query, entry by entry: the names asked about, up to the first subscribed one, are in it, and nothing else has changed |
| Subscriptions.SetExactly | dev/websockets/client.go:181-185 | the table after subscribing: the given names are true, all others as they were |
| Subscriptions.DelExactly | dev/websockets/client.go:187-191 | the table after unsubscribing: the given names are gone, all others as they were |
| Subscriptions.AnswersRefineSet | dev/websockets/client.go:181-205 | over any mix of subscribing, unsubscribing and asking, every answer is that of a plain set |
| Mailboxes.OfferNeverSkips | dev/websockets/hub.go:69-78 | a message wanted, because of "*" or of one of its tags, becomes the newest of the queue, or 8192 are waiting and the client is closed; others change nothing |
| Frames.PayloadOf | dev/websockets/hub.go:108-112 | a broadcast payload has no newline, and is the data with newlines as spaces less Unicode white space at its ends, of which none is left there |
| Frames.SpacesExactly | dev/websockets/hub.go:109 | white space are the 25 characters with that property in Unicode |
| Frames.FrameRoundTrip | public/home.html:38-44 | splitting a frame at newlines gives back its messages if and only if none of them has a newline |
| Hubs.Client.constructor | dev/websockets/client.go:214-231 | a client starts open, with an empty queue and its basic and requested subscriptions |
| Hubs.Client.Close | dev/websockets/client.go:173-179 | the client leaves the map and its channels are closed, which it requires not to have happened before |
| Hubs.Client.Subscribe | dev/websockets/client.go:181-185 | the subscribed tags become the union with the given ones |
| Hubs.Client.Unsubscribe | dev/websockets/client.go:187-191 | the subscribed tags become the difference |
| Hubs.Client.IsSubscribed | dev/websockets/client.go:193-205 | the answer is membership, the subscribed tags stay the same |
| Hubs.Client.Receive | dev/websockets/hub.go:69-78 | one client's share of a broadcast |
| Hubs.Client.NextFrame | dev/websockets/client.go:120-131 | the frame is the join of everything queued, which the page splits back if it has no newlines, and the queue is empty after |
| Hubs.Hub.Deliver | dev/websockets/hub.go:62-79 | every client of the map gets its share once, whatever the order, and exactly the ones closed by it leave the map |
| Hubs.Hub.Broadcast | dev/websockets/hub.go:108-112 | what the event loop is handed is the normalized data, without newlines, with the given tags |
| Hubs.Hub.Shutdown | dev/websockets/hub.go:52-60 | the map is empty and every client it held has been closed |
| Hubs.Hub.Handle | dev/websockets/hub.go:90-103 | one turn of the event loop does to every client exactly what its event means for it |
| Hubs.Hub.Run | dev/websockets/hub.go:87-106 | after the loop the map is empty and every client ever registered has been closed exactly once, with the queue its events gave it |
| HubEvents.FollowExactly | dev/websockets/hub.go:87-106 | after any events, a client holds the broadcasts it wanted between its registration and its unregistration, in order, the first 8192 of them, and is open if and only if it was not unregistered and there were no more |
| HubEvents.NeverRegistered | dev/websockets/hub.go:93-96 | a client that is never registered is sent nothing and not closed |
| HubProtocol.VisitedResult | dev/websockets/hub.go:68-79 | a visit of the hub to an open client enqueues, skips or closes it, by its subscriptions and the room in its queue |
| HubProtocol.WriterKeeps | dev/websockets/client.go:104-143 | no step of a writer loses, repeats or reorders a message: dequeued and queued messages are those sent, and finished frames and the one being built are those dequeued |
| HubProtocol.StepKeeps | dev/websockets/hub.go:87-106 | every step of every interleaving keeps the hub invariant: books of the loop and of every writer |
| HubRuns.GapFree | dev/websockets/hub.go:68-79 | in every run, the broadcasts enqueued for a client are exactly the ones since its registration that matched its subscriptions, in order; while it is open none but one in delivery is missing |
| HubRuns.ClosedIsFinal | dev/websockets/client.go:173-179 | a closed client is never mapped again and nothing is enqueued for it |
| HubRuns.FixedSubscriptionsGetFilter | dev/websockets/client.go:222-231 | for a client whose subscriptions stay as served, they are a plain filter of the log |
| HubRuns.Conservation | dev/websockets/hub.go:52-106 | in every run, the clients registered are the mapped ones, never closed, and the others, closed exactly once; after the shutdown all are closed |
| HubRuns.WriterNeverStarves | dev/websockets/client.go:126-131 | a writer that has counted its queue finds every message it counted, also after the queue was closed |
| HubRuns.PiecesAreDequeued | dev/websockets/client.go:112-135 | over all frames of a client, the pieces the page splits them into are the messages dequeued, in order, but for a frame being built |
| HubRuns.DeliveryEndToEnd | dev/websockets/hub.go:68-79 | for a client whose replies have no newline, the pieces the page gets are the messages framed, the broadcasts among them are a prefix of the matching broadcasts since registration, and all of them once the queue is drained and the writer waits |
| HubRuns.BroadcastsEndToEnd | dev/websockets/hub.go:68-79 | a client that was sent no reply gets exactly that prefix, piece by piece |
| HubRuns.FramesAlwaysSplitBack | dev/rpc_events.go:15 | with the reply this server sends, every frame of every client in every run splits back into its messages |
| ClientRuns.LeavesForGood | dev/websockets/hub.go:97-100 | in every run, a client that was unregistered or closed by the shutdown is never mapped again, has been closed once, and nothing is enqueued for it from then on |
| ClientRuns.ClosedExactly | dev/websockets/hub.go:52-106 | a client is out of the map if and only if it was unregistered, closed by the shutdown, or a broadcast it wanted found 8192 messages waiting |
| ClientRuns.LogIsTaken | dev/websockets/hub.go:108-112 | the log of a run is the normalized data of the broadcasts taken, with their tags, in order |
| ClientRuns.SubscriptionsFollowChanges | dev/websockets/client.go:181-228 | in every run a client is subscribed to errors, broadcast and what it was served with, as changed since, whatever was asked |
| ClientRuns.SeenIsMeant | dev/websockets/hub.go:70 | the subscriptions a broadcast is matched against are those at the hub's visit |
| ClientRuns.WildcardGetsEverything | dev/rpc_events.go:17-18 | a client served with "*", as by this server, is sent every broadcast from its registration to its close, whatever the tags |
| ClientRuns.RepliesExactly | dev/websockets/client.go:145-152 | a client is sent exactly the replies for which fewer than 8192 messages were waiting, in order |
| ClientRuns.FrameIsPacked | dev/websockets/client.go:120-133 | a frame holds the message taken first and everything that was queued when the queue was counted |
| ClientRuns.ExitedIsFinal | dev/websockets/client.go:112-142 | after a failed write or ping or the close of its channel a writer takes and sends nothing more |
| ClientRuns.CloseDrains | dev/websockets/client.go:112-118 | a writer that ends because its channel was closed has framed everything ever enqueued for the client |
| ClientRuns.WriterCanMove | dev/websockets/client.go:104-143 | a writer that has not returned can get on exactly when it builds a frame, has a message waiting, or its channel is closed |
| ClientRuns.WriterProgram | dev/websockets/client.go:104-143 | in every run, a step of a writer is possible if and only if its program has it next: in its select, take or lose the oldest message, see the closed channel once its queue is empty, or fail to ping; then count, add as many as were counted, and send the frame or fail to |
| ClientRuns.LoopProgram | dev/websockets/hub.go:52-106 | in every run, a step of the event loop is possible if and only if its program has it next: anything that comes in its select; in a broadcast a visit, once, to each client mapped when it was taken, and the end after the last; in the shutdown the close of a mapped client, and the end after the last |
| ClientRuns.PhaseExactly | dev/websockets/hub.go:87-106 | what the loop is at is decided by the last step it took |
| ClientRuns.ClientsAreFree | dev/websockets/client.go:145-191 | subscriptions can change at any time, and exactly the clients that are open can be sent a reply |
| ClientRuns.DeliveryCanEnd | dev/websockets/hub.go:68-79 | from every state of every run, a broadcast begun can be brought to its end by visits alone |
| ClientRuns.ShutdownCanEnd | dev/websockets/hub.go:52-60 | from every state of every run, a shutdown begun can be brought to its end, with every client closed |

## Left out

- LineBuffers.LineBuffer.Append: the size is a natural number that only Append changes; a negative size, or one changed from outside while lines are held, is not modelled, because the code panics or loses lines there.
- LineBuffers.LineBuffer.WriteTo: the total is unbounded, not a 64-bit number.
- AppPools.AppPool.FindAppByDomainName: what happens between two probes is an arbitrary new map; the interleaved model has single lookups.
- AppPools.AppPool.LookupApp: events, log lines and the check for dangling links have no effect on the result and are left out.
- AppPools.AppPool.Launch: whether starting succeeds is a parameter; the goroutines it starts exist in the interleaved model only.
- AppPools.App.Watch: reading the process output, waiting for the process, removing the socket file and the text of the error are not part of it; in the interleaved model the first two are steps.
- AppPools.App.IdleMonitor: which of a tick and a dying tomb its select receives is a parameter; the race of the two is in the interleaved model only.
- Domains.DropPortElsewhere: net.SplitHostPort is modelled by its documented forms, not from its code.
- AliasRuns.OneTargetOneInstance: the file system holds still, and no requested name is the canonical name of a link target; a later answer that is an evicted instance found under an alias it has kept is covered by `AliasRuns.OneInstanceExactly`.
- Lifecycle.PurgeEmpties: nothing is claimed about removing proxies, because nobody removes them.
- PurgeProgress.PurgeCanReturn: it says that the return stays reachable, not that a particular scheduler reaches it; the exit of a signalled process is a step the environment takes.
- HubProtocol.StepKeeps: the model ends at the hub's shutdown; sends on closed channels by other goroutines, among them UnregisterAll, are outside it, and a client is registered once.
- Purge as an object method: it waits for other goroutines, so it exists in the interleaved model only.
- Dropping idle connections, which the AppClosed callback does: `RemoveApp` records its calls only, and the map it leaves is that of `Lookup.Remove`.
- Starting processes, the shell script, dialling the socket, reading proxy files and parsing their addresses: only success or failure and the new instance are kept.
- WaitTilReady and Status: the first can return nil for an instance killed without an error, and the second never reports booting, so no promise about them is stated.
- tomb.Go after all goroutines have returned: the launch of an instance is one step.
- Reads of the pool without its lock (findAppByKey, ToJson), the host `puma-dev` itself, RPC routing, JSON views and event texts.
- The console program, optional fields, DNS, TLS certificates, launchd, installers, the home directory, file watching and static files.
