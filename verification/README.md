# Verified model of the agent co-ordination harness

This project models, in Dafny, the parts of the harness where several
mechanisms interact, and proves what they promise over every input and every
run:

- the **bead lifecycle store**: a task list that many processes rewrite under
  one lock, with an acyclic dependency graph, leases fenced by a counter, a
  verify gate evaluated before the lock and compared again under it, a gate
  callers may not rewrite, and a cascade that closes parents in the same
  locked region as their last step (`BeadModel`, `CyclePath`, `StepCascade`, `BeadStore`,
  `Beads`, and the run theorems in `BeadRuns`, `RunGates`, `RunLeases`,
  `ReapRace`);
- the **procedure store and run filing**: versioned procedures, the check of
  role bindings, and the compilation of a step list into beads that the store
  then executes (`Procedures`, `RoleBindings`, `Filing`, `RunFiling`,
  `FiledGates`);
- the **recurrence registry**: an append-only log and what triage writes to it
  (`Registry`, `Triage`, `TriagePlans`, `TriageRuns`, `RegistryMetrics`);
- the **audit reducer** (`Audit`, `AuditLaws`), **natural keys and their
  backfill** (`NaturalKey`, `KeyedStore`, `Backfill`), the **portfolio walk**
  (`Portfolio`) and the **reconcile latch** of a worker's poll (`Pull`,
  `PullRuns`).

`Prelude` and `Graph` hold small shared definitions. `dafny verify
dfyconfig.toml` checks everything.

## How the model is built

What the source changes in place is a class (`Beads.Beads`,
`Procedures.AsopStore`, `Triage.RegistryFile`, `Triage.TriageRun`,
`Audit.Reducer`, `Backfill.Store`, `Portfolio.Walker`, `Pull.PullLedger`) or a
method with the source's loop. Each such method's contract ties its result and
its new state to a function of the old state, or states the promise outright;
the theorems about whole runs are about those functions. What each operation
decides is said a second time without its function: lemmas named `...Decides`,
`...Reads` or `...Exact` state its answer, its refusals and what it leaves from
the inputs alone.

**Runs of the bead store.** A world is the stored list, the operations in
flight and a clock. Events are: time passes; a bead is created; the unlocked
half of a call runs (it reads the bead, evaluates its gate with that moment's
check outcome, and leaves a prepared operation in flight); the locked half of
some operation in flight commits. Any number of operations may be in flight
and their halves interleave freely. Creation and the locked half are one step
each, since both run under the store lock; the reaper's scan and its write are
the two halves of one operation, as in the code. The check is an oracle (which
stage passes is given per event), the declared verifiers are a set, and
validating a gate is an idempotent partial normaliser.

**Runs elsewhere.** The procedure store's runs are sequences of its four
verbs; the registry's are sequences of disposals and recorded fixes by any
scopes; the poll's are sequences of visits, each with whatever store it finds.

## Where the code and its comments differ

- The note on the step cascade says no reader sees all steps DONE with the
  parent still open. `update` rewrites the file, then the cascade rewrites it
  again, inside the lock, and reads take no lock
  (`agentco_harness/beads.py:2086-2153`). The file between the first two
  rewrites shows the parent of the step just finished open over finished
  children exactly when the cascade is about to close it
  (`StepCascade.MiddleShowsOpenParentIff`), and for a filed run it shows every
  step DONE under an open parent (`RunFiling.ParentOpenInTheMiddle`). The run
  theorems treat a locked region as one step, so "in the same locked region" is
  what they promise.
- Backfill is documented to leave rows that already carry a key exactly as they
  are. `Backfill.KeyedRowUnchangedIff` says exactly which ones it does leave;
  the later holder of a key that two rows already carried is marked.
- The approval check never looks at the `passed` flag of the attestation's own
  verdict (`agentco_harness/beads.py:1757-1784`); the model follows the code.

## What is false of the code, and exactly where

- Lease exclusivity. With each reap one step it holds in every run until a
  report or an update releases the lease
  (`RunLeases.ExclusiveWithAtomicReaps`). In general a further claim can stick
  early if and only if a reaper's late write landed on the live lease or an
  update gave the bead back (`RunLeases.ExclusivityLostIff`). Both happen:
  `ReapRace.ReapRaceBreaksExclusivity`, and, with every reap one step, the
  unfenced release after an authentication outage
  (`ReapRace.OutageBreaksExclusivity`).
- Finished work can come back: a reaper's late write returns a bead that became
  DONE since the scan to PENDING (`ReapRace.LateReapReopensDone`).
  `RunLeases.DoneReopenedIff` says exactly which steps reopen a DONE bead.
- The cascade can leave an open parent all of whose children are DONE
  (`StepCascade.MixedFamilyStaysOpen`). It closes such a parent if and only if
  every child that became DONE in that write is a step
  (`StepCascade.CascadeClosesIff`).
- The parent of a filed run is DONE exactly from the first moment all its steps
  have been, if and only if nobody finishes it by hand or reopens it
  (`RunFiling.ParentClosesWithLastStep`).
- A fix recorded for a fingerprint nobody opened spoils that history for good;
  histories stay good exactly when that never happens
  (`TriageRuns.HistoriesGoodIff`).
- Escaping does not keep every two components apart: the separator and a literal
  `%7C` read the same. A text's escaped form is its own if and only if it holds
  neither (`NaturalKey.EscapeOwnIff`). Shortening confuses a text with another
  exactly in the cases of `NaturalKey.BoundedAlikeIff`.
- A create keeps keys unique exactly when it is not an otherwise fileable one
  that brings, past a derivation that yields nothing, a key already held
  (`KeyedStore.CreateKeepsOneHolderIff`; `KeyedStore.SmuggledTwice` does it).
- After a held poll the later polls under its ledger key are all held if and
  only if each is unforced and names an agent with something outstanding
  (`PullRuns.LatchHoldsIff`); so an agent with nothing outstanding, polling
  under the same node, clears the latch (`PullRuns.SharedKeyDefeatsLatch`).

## Model

| member | source | states |
|---|---|---|
| CyclePath.CyclePath | agentco_harness/beads.py:1175-1227 | the search terminates; it returns nothing exactly when giving the bead these blockers puts it on no cycle, and otherwise a genuine closed chain of the would-be graph from the bead to itself |
| CyclePath.IndexSuccessors | agentco_harness/beads.py:1196-1203 | the successor index built by the loop lists exactly the edges of the store |
| CyclePath.Search | agentco_harness/beads.py:1204-1227 | the breadth-first search either finds a walk to the target or shows that everything reachable misses it |
| CyclePath.Unwind | agentco_harness/beads.py:1212-1222 | following recorded parents back yields a walk of real edges from the root to the blocker |
| Graph.RewireAcyclic | agentco_harness/beads.py:2018-2041 | on an acyclic graph, new blockers for one node leave the graph acyclic exactly when that node is on no cycle, so checking one node is enough |
| Graph.FrontOfAcyclic | agentco_harness/beads.py:2232-2242 | in an acyclic graph every non-empty set of waiting nodes has one that waits for none of them |
| BeadModel.FindUnique | agentco_harness/beads.py:1989-1995 | under unique ids the first bead found for an id is the bead holding it |
| StepCascade.OpenCountDrops | agentco_harness/beads.py:2096-2153 | closing a bead lowers the number of open beads: the measure by which the cascade ends even on a looping parent chain |
| StepCascade.CascadeFrame | agentco_harness/beads.py:2096-2153 | the cascade closes only open ungated beads all of whose children end DONE, and marks but never closes a gated one; gates, edges and leases are untouched |
| StepCascade.CascadeExact | agentco_harness/beads.py:2096-2153 | the whole effect of a finished bead: exactly the open beads whose families it or a step closed because of it completes are closed, or marked when gated, and nothing else changes |
| StepCascade.CascadeSettles | agentco_harness/beads.py:2096-2153 | when the bead just closed is the only reason a parent could close, any parent left closable waits on a child that is not a step |
| StepCascade.CascadeClosesAll | agentco_harness/beads.py:2096-2153 | with unmixed families nothing closable is left open |
| StepCascade.CascadeClosesParent | agentco_harness/beads.py:2096-2153 | an ungated parent of steps only is DONE by the end of the locked region in which its last child becomes DONE |
| StepCascade.CascadeClosesIff | agentco_harness/beads.py:2096-2153 | an open ungated parent with a child newly DONE and all children DONE afterwards is closed if and only if every child newly DONE is a step, whatever the families and parent chains |
| StepCascade.MiddleShowsOpenParentIff | agentco_harness/beads.py:2086-2153 | the file between the first two rewrites shows the finished step's parent open over finished children exactly when the closing branch's guard holds, and that parent is then closed |
| StepCascade.ReaderSeesOpenParentIff | agentco_harness/beads.py:2096-2104 | in unmixed families a reader in the middle sees a half closed run exactly then, and after the last rewrite never |
| StepCascade.MixedFamilyStaysOpen | agentco_harness/beads.py:2115-2123 | a concrete store in which a planned child finishing last leaves a closable parent open |
| BeadStore.PrepareFrame | agentco_harness/beads.py:1943-1979 | the unlocked half changes only status, result and metadata, only on the way to DONE, and then remembers the gate it read |
| BeadStore.GateDecides | agentco_harness/beads.py:1757-1868 | a gated bead asked for DONE is sent to DONE if and only if its gate is released, else to VERIFY_FAILED or AWAITING_VERIFY by the kind of gate; outcome, approval and result are said too |
| BeadStore.SpeclessDecides | agentco_harness/beads.py:1648-1755 | a bead without a gate goes to AWAITING_VERIFY exactly when it is self-reported agent work that is no root-cause analysis, and self-reported work is marked unverified |
| BeadStore.PrepareRefusedIff | agentco_harness/beads.py:1930-1979 | the unlocked half raises exactly for a gate that does not validate or a gated bead to be skipped |
| BeadStore.WriteFrame | agentco_harness/beads.py:2060-2095 | a write sets its own bead's fields; every other change is the cascade's |
| BeadStore.CommitDecides | agentco_harness/beads.py:1981-2059 | the locked half writes exactly when the bead is there, the hook allows it, a person keeps their bead, the blockers are sound and the gate is the one read; otherwise nothing changes and the first failure is named |
| BeadStore.CommitWrites | agentco_harness/beads.py:2060-2095 | an accepted update leaves every field it names and no other on its bead, then what the cascade does; one that does not finish the bead touches no other |
| BeadStore.CreateDecides | agentco_harness/beads.py:1375-1455 | a bead is created exactly when a key, if any, derives and is free and the rest is fileable; a held key answers with its first holder |
| BeadStore.CreatedBead | agentco_harness/beads.py:1431-1455 | a new bead carries the status, assignees, source, parent, blockers, requirements, key and normalised gate asked for, and no lease, result or answer |
| BeadStore.ReadyIsClaimable | agentco_harness/beads.py:2232-2242 | what `ready` offers can be claimed at once by exactly those who hold its requirements, and is nobody's, dispatchable and waits for nothing unfinished |
| BeadStore.ReportCommitted | agentco_harness/beads.py:2592-2635 | a report either leaves the store as it was or was fenced on the current attempt and ends the lease keeping the number |
| BeadStore.ReportOnRecord | agentco_harness/beads.py:2590-2635 | an accepted report is on record with its attempt, holder, status and key, so that its repeat will be recognised |
| BeadStore.ReportLands | agentco_harness/beads.py:2619-2635 | an accepted report of failure leaves the bead FAILED with its result; one of success goes through the gate, and behind a human or judged gate it only waits |
| BeadStore.ReportAgain | agentco_harness/beads.py:2595-2625 | the same report sent twice under a key leaves the store as the first left it and gets the same answer, whatever its check would say by then |
| BeadStore.ApprovalLands | agentco_harness/beads.py:2777-2815 | a sound approval of a bead behind a human or judged gate lands DONE with the verdict on record, and on a normal gate it does land |
| Beads.RunDeterministicCheck | agentco_harness/beads.py:1786-1868 | a deterministic gate passes exactly when every stage does, and stops at the first failing stage |
| Beads.DepthIn | agentco_harness/beads.py:1505-1517 | the loop up the parents terminates on looping chains and counts the generations above a bead |
| Beads.Beads.BeginUpdate | agentco_harness/beads.py:1930-1979 | the unlocked half yields exactly the prepared operation: refused exactly for an invalid gate or a gated bead to be skipped, and a gated bead asked for DONE is let through if and only if its gate was released |
| Beads.Beads.CommitUpdate | agentco_harness/beads.py:1981-2095 | the locked half finds, re-checks, refuses or writes exactly as specified, cascade included |
| Beads.Beads.OnStepClosed | agentco_harness/beads.py:2096-2153 | the recursive method computes the cascade and terminates on any store |
| Beads.Beads.Update | agentco_harness/beads.py:1870-2095 | both halves with nobody between; a refusal leaves the store unchanged |
| Beads.Beads.CreateBead | agentco_harness/beads.py:1303-1455 | creation appends one bead, or returns the holder of its key, or refuses, in the code's order of checks |
| Beads.Beads.Claim | agentco_harness/beads.py:2353-2452 | a claim sticks exactly when the bead is pending, free and within the claimant's capabilities; then only that bead changes and its counter rises by one; otherwise the refusal says whether it was capability or the lease |
| Beads.Beads.ReportResult | agentco_harness/beads.py:2520-2635 | an accepted report was under the current attempt, ends the lease and is on record, so its repeat is recognised; a repeat of the recorded key, or a refused report, changes nothing |
| Beads.Beads.ReapExpiredLeases | agentco_harness/beads.py:2637-2689 | run as one step, exactly the beads in progress under a readably lapsed lease go back to pending, attempts intact, and are returned |
| Beads.Beads.ApproveVerify | agentco_harness/beads.py:2727-2862 | each refusal happens exactly in its case, in the code's order; otherwise the approval is the update it stands for, and behind a human or judged gate it lands DONE with the verdict on record |
| BeadRuns.StepFrame | agentco_harness/beads.py:1981-2095 | one step appends at most one bead and writes at most one; all else is the cascade |
| BeadRuns.OperationOrigin | agentco_harness/beads.py:1930-1979 | every operation in flight was prepared at an identified earlier event, against that moment's store and check |
| BeadRuns.CreateKeepsSound | agentco_harness/beads.py:1417-1455 | creation keeps ids unique, blockers and parents existing, trees shallow and the graph acyclic |
| BeadRuns.CommitKeepsSound | agentco_harness/beads.py:2018-2041 | so does every locked write, whatever it was prepared from |
| BeadRuns.ReachableSound | agentco_harness/beads.py:1417-1494 | in every reachable store the blocking graph is acyclic and every blocker exists |
| BeadRuns.NoSilentDeadlock | agentco_harness/beads.py:2232-2242 | in every reachable store with a bead not DONE there is one not DONE whose blockers are all DONE |
| RunGates.DonePreparedIsReleased | agentco_harness/beads.py:1757-1868 | an update still bound for DONE after the gate ran had that gate released |
| RunGates.GatedDoneIsWritten | agentco_harness/beads.py:2042-2059 | a gated bead turns DONE only by a locked write to that very bead, under the gate that was read; never by the cascade |
| RunGates.GatedDoneWasReleased | agentco_harness/beads.py:1757-1868 | in any interleaving, a gated bead turning DONE commits against the very gate evaluated at an earlier event, whose check passed or which a declared verifier other than the executor answered with a reason; a caller allowed to change gates still released the one it read |
| RunGates.ReleasedMeans | agentco_harness/beads.py:1757-1784 | a gate is released exactly when every command passed, or else when somebody who may answer for the work, a declared verifier other than its executor, gave a reason and a time |
| RunGates.NobodyReleasesOwnWork | agentco_harness/beads.py:1757-1784 | in any interleaving, a bead behind a human or judged gate turns DONE only on an earlier answer by a declared verifier who was neither the agent nor the person it was assigned to, with a reason one can read |
| RunGates.ApprovalWasAnswered | agentco_harness/beads.py:1930-1942 | every approval on record was given by an earlier call in the run, for that bead, by a declared verifier other than the executor, with a reason; metadata never brings one in |
| RunGates.ReachableNormal | agentco_harness/beads.py:677-694 | every stored gate, and every gate on its way in, is in normal form |
| RunGates.GateStaysPinned | agentco_harness/beads.py:2042-2085 | once a bead carries a gate no run of calls alters or removes it unless somebody asks to |
| RunLeases.AttemptCountsGrants | agentco_harness/beads.py:2413-2444 | in every interleaving in which no update writes the counter, it equals the number of claims that have stuck |
| RunLeases.GrantedOnce | agentco_harness/beads.py:2413-2444 | no attempt number is granted twice |
| RunLeases.StaleReportFenced | agentco_harness/beads.py:2592-2635 | a report under any attempt but the latest grant leaves the store unchanged |
| RunLeases.HeldThrough | agentco_harness/beads.py:1059-1075 | after a claim sticks the bead stays under that lease until it lapses or one of the three releases happens |
| RunLeases.SecondGrantAfterExpiry | agentco_harness/beads.py:2413-2452 | no second claim sticks before the first one's expiry unless a report, a reaper's write on the live lease or an update of its holder released it |
| RunLeases.AtomicReapAsScanned | agentco_harness/beads.py:2665-2688 | over every run in which each reap is one step, a reaper writes only a bead in progress under a lapsed lease |
| RunLeases.ExclusiveWithAtomicReaps | agentco_harness/beads.py:2413-2452 | over every such run no second claim sticks before the first one's expiry unless a report or an update released it |
| RunLeases.ClaimSticksIff | agentco_harness/beads.py:2413-2444 | in every world a claim begun now sticks exactly when the bead is pending, free and within the claimant's capabilities |
| RunLeases.ExclusivityLostIff | agentco_harness/beads.py:2665-2680 | while a granted lease is unlapsed and unreleased, a further claim can stick right after an event if and only if that event was a reaper's late write or an update giving the bead back |
| RunLeases.DoneReopenedIff | agentco_harness/beads.py:2060-2095 | a DONE bead is reopened exactly by a locked write to it that says another status, never by a claim or the cascade |
| RunLeases.ReapReopens | agentco_harness/beads.py:2675-2680 | a reaper's write returns whatever it finds to PENDING; with each reap one step it finds only work in progress |
| ReapRace.ReapRaceBreaksExclusivity | agentco_harness/beads.py:2665-2680 | a concrete run in which two reapers' separate scans and writes let two claims hold one bead at once |
| ReapRace.OutageBreaksExclusivity | agentco_harness/orchestrator.py:885-891 | a concrete run, every reap one step and no report, in which an outage of a superseded attempt releases the new holder's live lease and a third claim sticks |
| ReapRace.LateReapReopensDone | agentco_harness/beads.py:2675-2680 | a concrete run in which an accepted DONE goes back to PENDING |
| Procedures.AsopStore.CreateProcedure | agentco_harness/asop_store.py:217-239 | the method performs exactly the specified creation and answers with the number or the refusal it gives |
| Procedures.AsopStore.Revise | agentco_harness/asop_store.py:241-290 | the method appends exactly the specified next draft or gives the specified refusal |
| Procedures.AsopStore.Activate | agentco_harness/asop_store.py:292-334 | the loop puts the draft in service and supersedes the one that was, and changes nothing else |
| Procedures.AsopStore.Retire | agentco_harness/asop_store.py:336-365 | only a person withdraws the version in service, and the number withdrawn is the answer; anybody else is refused and nothing changes |
| Procedures.CreateDecides | agentco_harness/asop_store.py:217-239 | a procedure is created exactly by a declared caller, from a text that validates, under an unused id, and is then version 1, a draft |
| Procedures.ReviseDecides | agentco_harness/asop_store.py:241-290 | a revision is written exactly when a declared caller edits an existing version of a readable id into a valid text the policy allows; it is that edit of the version named, or else of the highest, as a draft under the next number |
| Procedures.ActivateDecides | agentco_harness/asop_store.py:292-334 | a version goes into service exactly when a declared caller names a draft and the policy allows it; then it alone of its id is in service, the one that was is superseded by it, and nothing else changes |
| Procedures.RetireDecides | agentco_harness/asop_store.py:336-365 | a withdrawal succeeds exactly for a person on an id with a version in service, and then only that version changes |
| Procedures.LibraryStaysSound | agentco_harness/asop_store.py:217-365 | over every run an id's versions are 1..n, at most one is ACTIVE, and successors are named and well ordered |
| Procedures.OneCallMovesOnce | agentco_harness/asop_store.py:217-365 | one call leaves a version's status or moves it DRAFT to ACTIVE, or ACTIVE to SUPERSEDED or RETIRED |
| Procedures.VersionsOnlyMoveForward | agentco_harness/asop_store.py:217-365 | over any number of calls nothing written is edited, renumbered or moved back; statuses move along chains of those single moves (`MovesAreChained`) |
| Procedures.SupersessionEnds | agentco_harness/asop_store.py:292-365 | following successors never loops and ends at an ACTIVE or RETIRED version |
| RoleBindings.CheckBindings | agentco_harness/asop_store.py:412-435 | bindings are accepted exactly when every role is bound, constrained roles have distinct actors and no judge judges their own step |
| RoleBindings.CheckJudge | agentco_harness/asop_store.py:424-435 | the loop over a judged step's predecessors accepts exactly when each was someone else's |
| RoleBindings.SetSizeDistinct | agentco_harness/asop_store.py:419-423 | comparing a set's size with the list's length is the test for distinct actors |
| Filing.StepCreates | agentco_harness/asop_store.py:437-483 | no step of a flat run is refused; each is created waiting for the images of its `after` |
| Filing.FilingClosesNoCycle | agentco_harness/asop_store.py:483 | making the parent wait for its steps never closes a cycle |
| Filing.ParentHolds | agentco_harness/asop_store.py:483 | that update is accepted and its write is the filed run |
| Filing.LookUpAwaited | agentco_harness/asop_store.py:437-483 | the blockers looked up in the dictionary of ids are exactly the beads filed for `after` |
| Filing.FileRun | agentco_harness/asop_store.py:369-401 | filing a flat run yields exactly the parent waiting for its steps and one bead per step that carries it |
| Filing.FiledCarriesRun | agentco_harness/asop_store.py:460-483 | each step's bead is pending under its own id, with the step's gate and number, given to the actor its role is bound to, who is its recorded executor, and waiting for exactly the beads of the steps it comes after; the parent waits for exactly the steps |
| Filing.StartRun | agentco_harness/asop_store.py:369-435 | a run is filed exactly when the version asked for exists, is in service, has its inputs and its duties kept apart; then the store holds that version's steps, and otherwise nothing is written |
| RunFiling.FiledRunStarts | agentco_harness/asop_store.py:369-401 | a filed run is intact and open, its parent's blockers are exactly its step beads |
| RunFiling.FiledRunFromEmpty | agentco_harness/asop_store.py:369-401 | from the empty store, after any events, a flat run files as an intact tree that stays so, with its parent following its steps as below |
| FiledGates.FiledStepsAreGated | agentco_harness/asop_store.py:470-481 | over any events after a filing in which nobody asks to change a gate, a step that is DONE had the gate its text gives it released since, by a call on its own bead |
| FiledGates.ReachableReady | agentco_harness/asop_store.py:470-481 | what that asks of the store a run is filed on holds after any events from the empty store |
| RunFiling.StepKeepsRun | agentco_harness/beads.py:1981-2153 | no call of an ordinary run disturbs the filed tree |
| RunFiling.ParentClosesWithLastStep | agentco_harness/beads.py:2096-2153 | the parent is DONE exactly from the first moment all its steps have been DONE together, if and only if no locked write finishes it by hand or reopens it |
| RunFiling.ParentStepIff | agentco_harness/beads.py:2060-2153 | the same for a single step of any kind |
| RunFiling.ParentOpenInTheMiddle | agentco_harness/beads.py:2086-2153 | when a step's own write closes the parent, the file it passes through has every step DONE and the parent open |
| RunFiling.ReadyStepIsDue | agentco_harness/beads.py:2232-2242 | a step offered as ready has everything it comes after DONE |
| RunFiling.StepsClaimedInOrder | agentco_harness/asop_store.py:437-483 | a scheduler claiming only what is ready never claims a step before everything it is `after` has been DONE |
| Registry.Fold | agentco_harness/lesson_triage.py:102-117 | one pass keeps, for exactly the fingerprints visible, the last status, the count of sightings and the last target |
| TriagePlans.StandingRead | agentco_harness/lesson_triage.py:102-117 | a fingerprint stands where its last visible status entry left it, and has no status exactly when there is none |
| Registry.NewMeansUntouched | agentco_harness/lesson_triage.py:102-117 | no visible status and no `opened` of its own means no status history at all |
| Registry.ReopenMeansClosed | agentco_harness/lesson_triage.py:102-117 | closed as others see it and never reopened by this scope means the full history ends closed |
| Triage.CheckClassified | agentco_harness/lesson_triage.py:132-193 | a classification is accepted exactly when it covers every lesson once, is well formed, and argues every new fingerprint against all known or earlier similar ones |
| Triage.CheckDefect | agentco_harness/lesson_triage.py:176-193 | a defect row is accepted exactly when it reuses a known fingerprint or says why it is new and names every similar one |
| Triage.PlanDisposition | agentco_harness/lesson_triage.py:196-227 | one item per fingerprint in order of first mention, with its lessons in order, its count and the disposition its history (own scope hidden) implies |
| TriagePlans.PlanDecides | agentco_harness/lesson_triage.py:221-227 | a plan reports regressions exactly when some row names a defect the other scopes left closed, and nothing to triage exactly when there are no rows |
| TriagePlans.PlanReads | agentco_harness/lesson_triage.py:196-220 | one item for each fingerprint named, in order of first mention, with the target of the first row about it, the ids of exactly the rows about it in order, and its disposition and count as the log of the other scopes says |
| Triage.TriageRun.Dispose | agentco_harness/lesson_triage.py:230-248 | the written files are the plan and the log gains exactly what it lacks of it |
| Triage.TriageRun.CheckDisposed | agentco_harness/lesson_triage.py:251-266 | accepts exactly when the files are what the log implies now and what should be open is open |
| Triage.RegistryFile.RecordFix | agentco_harness/lesson_triage.py:409-416 | appends one closing entry unless this scope already recorded it |
| TriagePlans.FixRecorded | agentco_harness/lesson_triage.py:409-416 | fixed, mitigated and not-to-be-fixed are recorded as `fixed`, `mitigated` and `retired`, once per scope, and the log then reads the defect as closed |
| TriagePlans.RecurrenceIsRegression | agentco_harness/lesson_triage.py:196-227 | once one scope has recorded a fix, another scope's batch naming the defect again is a regression |
| TriagePlans.EntriesExact | agentco_harness/lesson_triage.py:234-247 | a disposal appends for an item exactly the status line its disposition asks for and the sightings of its lessons that the log lacks |
| TriagePlans.SimilarIff | agentco_harness/lesson_triage.py:120-126 | two names are alike exactly when they share at least as many words as they do not |
| TriageRuns.DisposeKeepsHistories | agentco_harness/lesson_triage.py:196-248 | deciding blind to its own scope, a disposal still keeps every history good |
| TriageRuns.HistoriesGoodIff | agentco_harness/lesson_triage.py:230-248 | over any run each fingerprint's status history begins with its only `opened` and reopens only after a closing, exactly when no fix was recorded for an unopened fingerprint |
| TriageRuns.DisposeAgain | agentco_harness/lesson_triage.py:230-248 | a second disposal of the same batch plans the same and appends nothing, whatever the log holds |
| TriageRuns.DisposeAcceptedIff | agentco_harness/lesson_triage.py:251-266 | the step's check accepts what dispose just did exactly when no status this scope had already recorded has been closed since |
| TriageRuns.FirstDisposal | agentco_harness/lesson_triage.py:146-266 | a scope's first disposal is accepted, and each item's occurrences equal the registry's new count |
| RegistryMetrics.Metrics | agentco_harness/lesson_triage.py:276-305 | the count of returns after a fix is the number of reopenings directly after a `fixed` in the status history |
| RegistryMetrics.ReopeningsAccounted | agentco_harness/lesson_triage.py:276-305 | in a good history every reopening followed a fix, a mitigation or a retirement |
| Audit.Reducer.String | agentco_harness/audit.py:460-467 | path-like and oversize strings become hashes, counted under their own heading |
| Audit.StringDecides | agentco_harness/audit.py:460-467 | a string is kept uncounted exactly when it neither begins at a home directory nor contains a root nor is longer than 256; otherwise its digest stands in, counted as a path or else as oversize |
| Audit.SafeNameIsSafe | agentco_harness/audit.py:434-435 | a key shown in a report is an identifier of at most 64 characters, save for one final line break the pattern lets pass, or nothing of the key |
| Audit.Reducer.ScalarOrNone | agentco_harness/audit.py:469-482 | exactly leaves and flat lists of leaves are kept, scrubbed; an abandoned list still counts what it hashed |
| Audit.Reducer.Reduce | agentco_harness/audit.py:484-516 | the recursive loops compute the reduction and add exactly its counts to the shared report |
| AuditLaws.NonInterference | agentco_harness/audit.py:484-516 | output and all counts are the same for rows that differ only under denied or unknown keys at any depth |
| AuditLaws.Conserved | agentco_harness/audit.py:484-516 | over all depths, keys and elements in equal those out plus those counted as dropped |
| AuditLaws.LevelAccounted | agentco_harness/audit.py:484-516 | at each level exactly the surviving keys come out, in order, and every other is counted under its name |
| AuditLaws.NestedAccounted | agentco_harness/audit.py:501-504 | what a nested object loses is counted in the whole report under the names of its path |
| AuditLaws.ListedAccounted | agentco_harness/audit.py:505-512 | the same for each object in a nested list; an element that is none is itself counted |
| AuditLaws.OutputIsClean | agentco_harness/audit.py:460-516 | no output at any depth holds a home path, a scrub root or an oversize string |
| AuditLaws.OutputHoldsNoPath | agentco_harness/audit.py:460-516 | no string at any depth of an output begins with `~`, contains a scrub root or is longer than 256 characters |
| AuditLaws.ReduceTwice | agentco_harness/audit.py:453-516 | reducing an output again changes nothing and counts nothing |
| NaturalKey.CleanIsWords | agentco_harness/natural_key.py:106-139 | a cleaned component is its words with single spaces |
| NaturalKey.CleanAlike | agentco_harness/natural_key.py:106-139 | two texts clean alike exactly when they have the same words |
| NaturalKey.ComponentDecides | agentco_harness/natural_key.py:106-139 | exactly a text with something to read and no control character makes a component; each refusal has its own case |
| NaturalKey.EscapeOwnIff | agentco_harness/natural_key.py:69-139 | a text shares its escaped form with no other if and only if it holds neither the separator nor `%7C` |
| NaturalKey.BoundedAlikeIff | agentco_harness/natural_key.py:133-138 | two texts are shortened alike exactly when they are equal, one is the form the other is shortened to, or both begin alike and share a digest |
| NaturalKey.LongComponentsApart | agentco_harness/natural_key.py:131-139 | over-long texts with different digests make different components, even when they differ only past the readable prefix |
| NaturalKey.ExplicitDecides | agentco_harness/natural_key.py:142-163 | a stated key wins over everything and is its words with single spaces, up to 640 characters |
| NaturalKey.DerivedDecides | agentco_harness/natural_key.py:199-245 | any part of a generated key asks for all three, before an external id, which asks for its source; nothing given derives no key |
| NaturalKey.ExternalKeySplits | agentco_harness/natural_key.py:171-179 | an external key splits back into its escaped components |
| NaturalKey.GeneratedKeySplits | agentco_harness/natural_key.py:182-196 | a generated key splits back into its escaped components |
| NaturalKey.FormsNeverCoincide | agentco_harness/natural_key.py:171-196 | an external and a generated key are never equal |
| NaturalKey.ExternalKeysAgree | agentco_harness/natural_key.py:171-179 | two external keys are equal exactly when their normalised components are |
| NaturalKey.GeneratedKeysAgree | agentco_harness/natural_key.py:182-196 | two generated keys are equal exactly when their normalised components are |
| KeyedStore.CreateKeepsOneHolderIff | agentco_harness/beads.py:1375-1455 | a create keeps one bead per key exactly when it is not a fileable one that brings a held key past the derivation, each guard spelled out |
| KeyedStore.SmuggledTwice | agentco_harness/beads.py:1384-1389 | one concrete such create, filed twice, leaves two beads with one key |
| KeyedStore.GrownHoldsEachKeyOnce | agentco_harness/beads.py:1375-1455 | a store grown by any creates whose metadata carries no key holds each key at most once |
| KeyedStore.RepeatReturnsHolder | agentco_harness/beads.py:1417-1430 | filing the same work again after any other filings returns the original bead and changes nothing |
| Backfill.Store.Survey | agentco_harness/natural_key.py:374-402 | the first pass derives each row's key and groups ids by key in order |
| Backfill.Store.Backfill | agentco_harness/natural_key.py:370-432 | the report is as specified, and rows are stamped only when applying |
| Backfill.BackfillTwice | agentco_harness/natural_key.py:370-432 | backfilling again changes no row |
| Backfill.SecondReport | agentco_harness/natural_key.py:370-432 | a second report has the same collisions and counts every keyed row as already keyed |
| Backfill.BackfillMarks | agentco_harness/natural_key.py:408-432 | rows without a key are untouched; others gain only key and duplicate mark, and each later holder of a shared key points somewhere |
| Backfill.RowsAddUp | agentco_harness/natural_key.py:374-402 | total rows are unparseable plus already keyed plus keyed plus not derivable |
| Backfill.DuplicatesCounted | agentco_harness/natural_key.py:302-305 | duplicate beads are the keyed rows less the distinct keys |
| Backfill.KeyedRowUnchangedIff | agentco_harness/natural_key.py:408-428 | a row that already carries a key is left exactly as it is if and only if nobody shares the key, or it is marked, or it is the first holder, or the first holder has no id |
| Backfill.KeyedRowMayChange | agentco_harness/natural_key.py:417-428 | one concrete keyed row that is changed |
| Backfill.MarkedIff | agentco_harness/natural_key.py:408-428 | after stamping, a keyed row points at the first holder exactly when it is a later holder of a shared key and did not come with both key and mark; otherwise its mark is what it was |
| Backfill.DerivedAsCreated | agentco_harness/natural_key.py:263-278 | the key derived for a stored row is the one filing it anew from its source and source id would get |
| Portfolio.Walker.Visit | agentco_harness/me.py:437-482 | a visit adds each new reachable instance once, terminates on cycles, and leaves nothing registered at what it added unseen |
| Portfolio.PortfolioTasks | agentco_harness/me.py:437-482 | the walk returns the tasks of exactly the instances reachable through readable, local children, each once |
| Portfolio.ReachedIff | agentco_harness/me.py:468-481 | an instance is reached exactly when the walk starts there or a reached, readable instance registers it locally |
| Portfolio.RemoteTasksLeftOut | agentco_harness/me.py:470-476 | no task kept only at an instance registered nowhere but as remote is returned |
| Pull.Unresolved | agentco_harness/doctor.py:319-331 | the outstanding set is exactly the live beads once handed to this worker that it holds or was last to hold |
| Pull.PullLedger.Record | agentco_harness/children.py:347-382 | one row per key is replaced, counting polls and keeping the last reconcile time |
| Pull.ClaimInTurn | agentco_harness/cli.py:489-512 | the claim loop leases the first capable ready beads up to the limit, lists the others it passed, and touches nothing else |
| Pull.Answer | agentco_harness/cli.py:408-521 | a held poll changes nothing but the ledger; otherwise lapsed leases are reaped and beads handed out in the listing's order, whatever order that is |
| Pull.PollDecides | agentco_harness/cli.py:414-433 | work is withheld exactly from an unforced poll whose agent owes something, when it asks to reconcile, has never polled, has been silent too long or was last told to reconcile |
| Pull.LedgerSays | agentco_harness/children.py:347-382 | after a poll its row says when it polled and how it was answered, and every other row is as it was |
| Pull.TakenFirst | agentco_harness/cli.py:489-512 | a poll claims every bead it can take among the first offered and lists every one it cannot, stopping only when its limit is met |
| PullRuns.LatchHoldsIff | agentco_harness/cli.py:414-486 | after a held poll, the later polls under its key are all held if and only if each is unforced and names an agent with something outstanding, whatever agents they name |
| PullRuns.HeldClaimsNothing | agentco_harness/cli.py:414-486 | while that lasts a poll under the key claims nothing |
| PullRuns.ReleasedOnlyWhenResolved | agentco_harness/cli.py:424-431 | work handed out after a reconcile was preceded by a poll under the key that was forced or found nothing outstanding |
| PullRuns.LedgerCountsPolls | agentco_harness/children.py:347-382 | a key has a row exactly when it has polled, and the row counts every poll, held or not |
| PullRuns.SharedKeyDefeatsLatch | agentco_harness/cli.py:408-431 | a second agent polling under the same node clears the latch |

## Left out

- Titles, descriptions, priorities and timestamps of beads. The order they give a listing is a parameter of the poll, required only to reorder.
- Capability-token normalisation, the divergence, context-reference and procedure-copy contracts on metadata, and the goal review hook.
- Beads.Beads.CommitUpdate: the `parent_id` keyword of `update` and its reference check; parents come from creation only, which is where depth is checked.
- Beads.Beads.Update: the same.
- Gates in the legacy shape read from old files; stores start empty, so every gate has been normalised on the way in.
- RunLeases.AttemptCountsGrants: for runs in which no update writes `lease_attempt`; none of the harness's calls does.
- RunLeases.GrantedOnce: the same.
- RunLeases.StaleReportFenced: the same.
- The two unlocked reads of a report are one: the metadata it writes back is arbitrary in the model, which covers any difference between them.
- Quarantined lines of the store file, file bytes, the lock implementation, and the middle of a locked region beyond its first rewrite.
- Subprocesses, network, notifications and worktrees; the outcome of a deterministic check is given from outside.
- Gate and procedure validation: given as an idempotent normaliser and a partial validator; the revision policy's verdict is a parameter.
- Nested `uses` in a run: filing is modelled for flat procedures, as one step with respect to other callers.
- Filing.StartRun: for stores of flat procedures, since nested `uses` are not filed; the parent's record of inputs and bindings, and the copies of a step's text, are not carried.
- FiledGates.FiledStepsAreGated: for runs in which nobody asks to change a gate, which `update` allows a caller to do.
- RunFiling.ParentClosesWithLastStep: for runs whose step beads nobody rewires, un-steps or files more siblings beside, and whose parent nobody gates.
- RegistryMetrics.Metrics: hours to fix and their median, since the model's entries carry no times, and the totals.
- The regular expressions for fingerprints and targets, which are parameters.
- TriageRuns.FirstDisposal: lesson ids hold no comma, because the plan joins them with one.
- The audit table itself: the laws hold for every table closed under nesting. Reading ledgers, filtering by date and writing the bundle.
- AuditLaws.ReduceTwice: no scrub root occurs in a hash string; a root such as "256" would.
- Any bound on a component's length after escaping; case folding and the digest are parameters.
- Row text in the backfill: it works on rows already split, and ids, sources and keys that are not strings are not modelled.
- The ranking, scoring and rendering parts of the portfolio view, and how a registry path leads to a configuration file.
- An unreadable pull ledger reads as empty in the code, which drops the latch; the model's ledger is always readable. When the latch clears is not claimed.
- The command line apart from the poll, exit codes, doctor's other checks, cost and egress accounting.
