# Verified model of the desktop companion

A Dafny model of five parts of the assistant, with proofs of what they promise.  Every part that
works by changing things in place is a class or a loop here, proved equal to a value-level
specification; the theorems are about that specification, over all runs, all interleavings or all
inputs.

- **Companion** (`Scenes`, `SceneTable`, `SceneInterleaving`, `SceneTiming`, `CompanionMemory`,
  `RepetitionHistory`, `DensityGovernors`, `SlotReservation`, `Dice`, `CapLimits`, `Companion`,
  `CompanionRuns`, `CompanionClasses`).  The timed scene machine, as sequential calls, with the lock
  sections of any number of threads interleaved, and with the time that calls take; the emission
  governor and slot reservation against the full emission log; the two memories and the advisor
  against the history of scenes; the screen watcher and whole runs on top.  Each clock reading of the
  source is an input of its own, and so is each roll of the dice.
- **Streaming** (`StreamingExecutor`, `TextStream`).  Worker, queue, polling consumer and cancel flag
  as a transition system; the text chunker and the event stream as a transformation.
- **Prompt budget** (`Tokens`, `Strings`, `PromptBudget`, `PromptBounds`, `PromptOverrun`,
  `PromptContents`, `PromptLimits`, `MemoryPrompt`, `MemoryPromptBounds`, `MemoryPromptTexts`).  Token
  estimates, history pruning, clipping and the memory block, with exact constants, lengths and texts.
- **Skill router** (`SkillRouter`, `RoutingTable`, `SkillScores`).  Heuristic scores, the model's reply,
  policy guard, thresholds; which reply leads where, and what each signal adds.
  The text tests and the reply are arbitrary inputs.
- **Memory ranking, maintenance and news cache** (`Similarity`, `Relevance`, `IdLists`,
  `MemoryMaintenance`, `NewsCache`).  Tables are maps.

`Options`, `Reals` and `FiniteSets` hold helpers.  `dafny verify dfyconfig.toml` checks the whole
project.

## Where the code is subtler than it looks

- Entries into AFK are more than `afk_seconds` apart when calls run one after the other.  With other
  threads in between, even though only the watcher ticks, the distance shrinks by up to the length of
  a call: a text noted just before the tick commits AFK, and acted on just after, wakes the machine
  without restarting the idle time.
- A reservation reads the clock before it takes the lock and the governor reads it again inside, so
  the emission cap covers exactly the window less the time between the two readings.
- A trimmed system prompt overshoots its allowance by up to 11 tokens, because a 34-character marker
  stands against an allowance of 20; it does so exactly when fewer than 14 characters of whitespace are
  stripped at the two cuts, and so does the whole pruned prompt.  The memory-hint clipper stays under
  its limit exactly from 346 on.  A prompt without conversation is not pruned at all.
- The truncating branch of the memory block is dead for every built-in policy, and the program has no
  others; under another policy it could overshoot, by at most 4 characters.
- Merging duplicates passes ids around as comma-separated text, which is exact only under a condition
  on the ids.  The program's own ids meet it, and more: they are made from the content, so its tables
  never hold a duplicate to merge.  Only rows written by something else could be affected.
- The unique hash of the news cache is safe unless an empty article id ever gets in.  Ids come from
  the page address and hashes from the title as well, so a page listed twice under different titles
  gives one id two analyses, of which the table keeps the last; a refresh is sure to agree with the
  table exactly when the ids of its batch are distinct.
- Without a usable model reply small talk can be routed to a skill.

## Model

| member | source | states |
|---|---|---|
| Scenes.AfkEntriesAreFarApart | app/companion/scene_state_machine.py:105-196 | In every sequential run over a clock that never runs backwards, whatever the starting scene, any two entries into AFK lie strictly more than `afk_seconds` apart. |
| Scenes.AfkSpacingInvariant | app/companion/scene_state_machine.py:105-223 | The invariant behind it, over whole runs: the log is spaced, and whenever AFK has been left an event was noted no earlier than every AFK entry so far. |
| Scenes.CallKeepsAfkSpacing | app/companion/scene_state_machine.py:105-196 | Every kind of call, with its own two clock readings, keeps that invariant; only ticks can enter AFK. |
| Scenes.TickKeepsAfkSpacing | app/companion/scene_state_machine.py:105-124 | A tick keeps it: it enters AFK only after `afk_seconds` without an event. |
| Scenes.TickOnlyRunsSettle | app/companion/scene_state_machine.py:105-124 | With ticks alone, each transition costs a unit of rank (timed game scenes, other active scenes, AFK), so at most two happen, none is a self-transition, and HOMECOMING is never left. |
| Scenes.TwoLateTicksReachAfk | app/companion/scene_state_machine.py:105-124 | Conversely two ticks past the expiry and the idle time bring every state but HOMECOMING to AFK. |
| SceneInterleaving.TimersSurviveInterleaving | app/companion/scene_state_machine.py:105-226 | Any number of threads, each lock section one atomic step, forced scenes and jumping clocks included: always the AFK timer is set exactly in AFK, and a set expiry is the entry time plus the current scene's own duration. |
| SceneInterleaving.TransitionsFormAPath | app/companion/scene_state_machine.py:206-217 | However threads interleave, the transitions in the order they are committed form one gapless path from the first scene to the current one. |
| SceneInterleaving.SequentialCallIsAnInterleaving | app/companion/scene_state_machine.py:105-196 | The sequential model and the lock-section model agree: running one call's sections back to back gives its state and its transition. |
| SceneInterleaving.FinishPerforms | app/companion/scene_state_machine.py:206-223 | Reading the clock and then taking the transition lock, uninterrupted, is one transition. |
| SceneInterleaving.CallsKeepTimers | app/companion/scene_state_machine.py:105-196 | So each sequential call keeps the timer invariant too. |
| SceneTiming.OneTickerKeepsSpacing | app/companion/passive_screen_watcher.py:81-96 | With one ticking thread, as the watcher is, and calls that take at most a given time from first step to commit, any two entries into AFK are more than `afk_seconds` less that time apart, however other threads interleave. |
| SceneTiming.GuaranteedSpacingExactly | app/companion/scene_state_machine.py:105-223 | And that is all that is guaranteed: a distance is exceeded in every timed interleaving if and only if it is at most `afk_seconds` less the longest call, or negative; so calls longer than the threshold leave only the order of the entries. |
| SceneTiming.EarlySecondEntry | app/companion/scene_state_machine.py:105-139 | The interleaving behind it: a tick decides on AFK, another thread notes a text at the same instant, both commit late, and the next AFK may follow at any distance above the guaranteed one. |
| SceneTiming.MoveHolds | app/companion/scene_state_machine.py:105-223 | Every timed lock section keeps the invariant: an awake machine has noted an event no earlier than a call's length before each AFK entry, and a pending AFK is already far enough from all of them. |
| SceneTiming.PlayExecutes | app/companion/scene_state_machine.py:105-223 | The timed plays are interleavings of the lock-section model, step for step. |
| SceneTable.TextLeadsTo | app/companion/scene_state_machine.py:126-139 | Where every non-empty text leads from every state: boss, else combat, else victory, else defeat, else out of AFK to the named game or IDLE; with the literal 30 seconds, the reasons, the idle time restarted, and nothing entered twice. |
| SceneTable.EmptyTextDoesNothing | app/companion/scene_state_machine.py:126-128 | An empty text changes nothing at all, not even the idle time. |
| SceneTable.TickLeadsTo | app/companion/scene_state_machine.py:105-124 | Where every tick leads: a warming game becomes active, victory and defeat settle into the named game or IDLE, any other due expiry is only cleared; otherwise idle time past the threshold enters AFK, and not from AFK or HOMECOMING. |
| SceneTable.GameEnterLeadsTo | app/companion/scene_state_machine.py:141-152 | Entering or switching a game always enters its warming-up, for 60 seconds, and restarts the idle time. |
| SceneTable.GameExitLeadsTo | app/companion/scene_state_machine.py:154-164 | Leaving a game always enters IDLE, forgets the game and restarts the idle time. |
| SceneTable.LongGapReturnLeadsTo | app/companion/scene_state_machine.py:166-173 | Home-coming is entered for 20 seconds and touches neither game nor idle time. |
| SceneTable.ShippedIdleTime | app/companion/scene_state_machine.py:105-124 | As shipped an awake scene without a due expiry gives way to AFK exactly after more than 600 seconds without an event. |
| SceneTable.ForcedSceneLeadsTo | app/companion/scene_state_machine.py:225-226 | A forced scene is entered from any scene, the same one included, without an expiry, and logged. |
| CompanionClasses.SceneStateMachine.TransitionTo | app/companion/scene_state_machine.py:198-223 | The object's new fields and the reported transition are those of the transition section, and exactly an actual transition is written to the memories, under the game current at that moment. |
| CompanionClasses.SceneStateMachine.TickOnce | app/companion/scene_state_machine.py:105-124 | The object performs a tick of the value model, and the listener records its transition, if any. |
| CompanionClasses.SceneStateMachine.ObserveAssistantText | app/companion/scene_state_machine.py:126-139 | The keyword cascade over the object does what the value model does: idle timer restarted, first matching kind wins, otherwise AFK is left. |
| CompanionClasses.SceneStateMachine.WakeFromAfk | app/companion/scene_state_machine.py:191-196 | Outside AFK nothing changes; in AFK the machine always leaves for the running game or IDLE. |
| CompanionClasses.SceneStateMachine.ObserveGameEnter | app/companion/scene_state_machine.py:141-152 | Entering or switching a game on the object is the value model's call and always a transition. |
| CompanionClasses.SceneStateMachine.ObserveGameExit | app/companion/scene_state_machine.py:154-164 | Likewise for leaving a game. |
| CompanionClasses.SceneStateMachine.ObserveHomecoming | app/companion/scene_state_machine.py:166-173 | Likewise for coming back after a long gap; the idle timer is left alone. |
| CompanionMemory.ShortMemory.RecordEntry | app/companion/short_memory.py:37-42 | The bounded ring gains the entry and loses the oldest past its capacity; the returned count includes the new entry. |
| CompanionMemory.ShortMemory.RepetitionCount | app/companion/short_memory.py:44-58 | The loop counts the entries under the key that are no older than the window. |
| CompanionMemory.PersistentMemory.RecordGamePlayed | app/companion/persistent_memory.py:70-77 | A named game's counter grows by one and all others stay; an empty name changes nothing. |
| CompanionMemory.PersistentMemory.RecordVictory | app/companion/persistent_memory.py:79-83 | The victory streak grows, the defeat streak is cut, the games stay. |
| CompanionMemory.PersistentMemory.RecordDefeat | app/companion/persistent_memory.py:85-89 | The mirror image for defeats. |
| CompanionMemory.RepetitionAdvisor.Advise | app/companion/memory_advisor.py:23-36 | The advisor over the two memory objects gives the value model's verdict and changes neither. |
| CompanionMemory.RepetitionAdvisor.RecordSceneEntry | app/companion/memory_advisor.py:38-45 | Recording a scene updates both memories as the value model does. |
| RepetitionHistory.RingHoldsNewest | app/companion/short_memory.py:35-42 | After any history the ring is exactly the newest `capacity` entries of it, in order. |
| RepetitionHistory.CountIsCardinality | app/companion/short_memory.py:56-58 | The count is the number of ring positions that match the key and the window. |
| RepetitionHistory.KeyIdentifies | app/companion/short_memory.py:18-20 | Two entries share a key exactly when scene and game label are the same, even with colons in game names. |
| RepetitionHistory.RepeatingCountsRecentEntries | app/companion/short_memory.py:44-58 | Repeating means: at least `repeat_threshold` of the newest `capacity` entries are this scene in this game within the window. |
| RepetitionHistory.CountersAreStreaks | app/companion/persistent_memory.py:79-89 | The two counters are the lengths of the trailing victory and defeat streaks of the outcome history. |
| RepetitionHistory.StreakReaches | app/companion/memory_advisor.py:8-9 | A streak reaches n exactly when the last n outcomes are of its kind. |
| RepetitionHistory.StreaksExcludeEachOther | app/companion/persistent_memory.py:79-89 | From a fresh state the two streaks are never both positive. |
| RepetitionHistory.VictoryRepeatsExactly | app/companion/memory_advisor.py:30-31 | A victory is reported as a repetition if and only if the last three outcomes were victories. |
| RepetitionHistory.DefeatRepeatsExactly | app/companion/memory_advisor.py:24-29 | A defeat is, if and only if the last two outcomes were defeats or enough same-game defeats lie in the ring and the window. |
| RepetitionHistory.GamesPlayedCountsWarmings | app/companion/persistent_memory.py:70-77 | A game's counter is its start value plus the number of times its warming-up was entered; the empty name never counts. |
| RepetitionHistory.VerdictsFollowHistory | app/companion/memory_advisor.py:23-36 | For every scene the advisor's verdict is exactly a property of the scenes entered so far, not of how they are stored. |
| RepetitionHistory.ShippedBossRepeats | app/companion/short_memory.py:24-58 | As shipped a boss fight is a repetition if and only if it is at least the third in this game within 1800 seconds, among the last 50 scenes. |
| RepetitionHistory.LabelsAre | app/companion/short_memory.py:18-20 | Missing and empty names share the label of the unknown game; every other name is its own. |
| RepetitionHistory.LastKnownIsLastWarmed | app/companion/persistent_memory.py:70-77 | The remembered game is the last named one whose warming-up was entered. |
| DensityGovernors.DensityGovernor.Prune | app/companion/density_governor.py:67-70 | The loop leaves what remains after dropping the leading times older than the window. |
| DensityGovernors.DensityGovernor.CurrentEnergy | app/companion/density_governor.py:59-65 | Recovered energy, clamped to the floor and to 1, without changing the state. |
| DensityGovernors.DensityGovernor.GateProbability | app/companion/density_governor.py:20-25 | The gated probability of the value model; only the deque is touched, by pruning. |
| DensityGovernors.DensityGovernor.Record | app/companion/density_governor.py:27-34 | Recording an emission updates deque, energy and time as the value model does. |
| DensityGovernors.PrunedIsSuffix | app/companion/density_governor.py:67-70 | Pruning drops exactly a prefix: everything dropped is too old, the first kept time is not. |
| DensityGovernors.DensityFactorRange | app/companion/density_governor.py:48-57 | The density factor is 0 exactly when the window holds `hard_cap` emissions, and otherwise above 1/10 and at most 1. |
| DensityGovernors.DensityFactorDescends | app/companion/density_governor.py:48-57 | More emissions in the window never raise the factor: it falls from 1 through 6/10 at the soft cap to 0 at the hard cap. |
| SlotReservation.ReserveSlotEffect | app/companion/observer.py:236-251 | What a reservation does to deque and cooldown, and when it can be granted: not muted, cooled down, and, unforced, a window that is not full. |
| SlotReservation.RunsTrack | app/companion/observer.py:236-251 | In every run the deque is a suffix of the full emission log that lacks only times too old, and the log is cooled, even though each call reads `now` before it takes the lock. |
| SlotReservation.DequeIsTheWindow | app/companion/density_governor.py:36-38 | Pruned at any later moment, the deque is exactly the emissions of the whole log that are no older than the window. |
| SlotReservation.EmissionsAreCooled | app/companion/observer.py:247-251 | All emissions, forced ones included, are at least one cooldown per step apart, in whatever order threads read the clock. |
| SlotReservation.DequeIsBounded | app/companion/density_governor.py:27-38 | The deque's length n always satisfies (n - 1) * cooldown <= window. |
| SlotReservation.RunsAreCapped | app/companion/observer.py:236-251 | No unforced emission ever has `hard_cap` others, forced or not, in the window (less the reading lag) that ends with it. |
| SlotReservation.HardCapHoldsEverywhere | app/companion/observer.py:236-251 | Without forced reservations every closed interval of length window minus lag, wherever it starts, holds at most `hard_cap` emissions; the lag is the greatest time between a call's two clock readings, 0 with a single reading. |
| CapLimits.CapCoversExactly | app/companion/observer.py:236-251 | For every cap, cooldown, window and lag, if the energy has a positive floor or recovers from one remark to the next: intervals of a given length hold at most `hard_cap` emissions in all unforced runs if and only if the length is at most window minus lag, or less than `hard_cap` cooldowns. |
| CapLimits.ShippedCapCovers | app/companion/density_governor.py:10-15 | As shipped: an interval is covered exactly up to 180 seconds less the lag (or below 72), so a full window is covered only if no call's readings are ever apart. |
| CapLimits.CrowdExceedsTheCap | app/companion/observer.py:237-250 | The run that shows it, for any cap: one emission per cooldown, then one whose gate looks just after the first has left the window. |
| SlotReservation.FullWindowRefuses | app/companion/density_governor.py:48-52 | Forced emissions may fill the window, but then an unforced reservation is always refused. |
| SlotReservation.EnergyHasTwoLevels | app/companion/density_governor.py:27-34 | If one cooldown recovers one drain and a drain stays above the floor, the stored energy is always exactly 1 or 1 - drain, whatever the clock does. |
| SlotReservation.GateIsNeverStarved | app/companion/density_governor.py:20-34 | Then the floor never matters, the gate is at least base * density factor * (1 - drain), and it is open exactly when the window is not full. |
| SlotReservation.DefaultsRecover | app/companion/observer.py:59-60 | The shipped defaults meet those two conditions. |
| Dice.GrantNeedsALowRoll | app/companion/observer.py:236-251 | Every unforced grant was rolled at or below the probability times the density factor of the emissions left in the window, hence at or below the probability. |
| Dice.FullEnergyGrantsExactly | app/companion/observer.py:236-251 | At full energy an unforced attempt is granted if and only if it is not muted, is cooled, has fewer than `hard_cap` emissions in the window, and rolls no higher than that. |
| Dice.LowRollIsGranted | app/companion/observer.py:236-251 | In every reachable state an unmuted, cooled attempt with room in the window is granted on any roll up to that bound times one less the drain. |
| Dice.ForcedNeedsOnlyCooldown | app/companion/observer.py:236-251 | A forced attempt is granted if and only if it is not muted and is cooled. |
| Dice.GrantDrains | app/companion/density_governor.py:27-34 | In every reachable state a grant leaves the energy exactly one drain below full, dates it, and restarts the cooldown. |
| Dice.EnergyRecovers | app/companion/density_governor.py:59-65 | The energy recovers in proportion to the time, up to full. |
| Dice.ShippedDice | app/companion/density_governor.py:10-57 | As shipped an unforced remark needs a roll of at most 0.2, and of at most 0.12, 0.095, 0.07 and 0.045 from the fifth emission in the window on; with nine there is none. |
| Dice.ShippedEnergy | app/companion/density_governor.py:10-65 | As shipped every grant leaves 0.88, recovering by 0.02 a second to full after six; the floor is 0.05. |
| Dice.MutingSilences | app/companion/observer.py:88-91 | While muted nothing is granted, forced or not; muting changes neither governor nor cooldown. |
| Companion.CallReserves | app/companion/observer.py:104-172 | A call reserves a slot exactly when it makes a transition, hears a non-empty text, or wins the deep-AFK roll; it then speaks exactly when granted, otherwise slots are untouched and nothing is said. Game changes and home-coming, and only they, force the gate, and always reserve. |
| Companion.ObserveEffect | app/companion/observer.py:104-144 | Emission never feeds back: a call moves the scene machine as on its own, and moves a play counter only by entering that named game. |
| Companion.CallKeepsSceneInStep | app/companion/scene_state_machine.py:105-196 | Warming-up and active scenes imply a game, IDLE implies none, and only entering or leaving changes the game. |
| Companion.StepKeepsAgreement | app/companion/passive_screen_watcher.py:73-116 | Every poll, assistant text and home-coming keeps the watcher's game equal to the machine's, and counts a play exactly when a poll newly detects the game. |
| Companion.PlaysAreMaximalRuns | app/companion/passive_screen_watcher.py:73-116 | Over whole runs a game's play counter grows by exactly the number of maximal runs of that game in the poll sequence, and the watcher holds the last detection. |
| Companion.ReportsFollowHistory | app/companion/lifecycle.py:59-64 | The listener records before the advisor is asked, so over one call a remark on a transition is a repetition if and only if the history ending in this very scene makes it one; other remarks never are. |
| CompanionRuns.MemoryIsHistory | app/companion/lifecycle.py:59-64 | After any run from a fresh memory the memories are those of exactly the scenes entered, in order. |
| CompanionRuns.RemarksAreTruthful | app/companion/observer.py:104-203 | In every run from a fresh memory every remark carries the repetition mark if and only if it is on a transition and the whole history up to it makes it a repetition. |
| CompanionRuns.TraceReserves | app/companion/observer.py:236-251 | The slots and the remarks of a run of the companion are those of the reservations it makes, so the theorems about reservations are about remarks. |
| CompanionRuns.RemarksAreCooledAndCapped | app/companion/observer.py:236-251 | The remarks of every run are a cooldown per step apart, and no unforced one has `hard_cap` others in the window (less the lag) that ends with it. |
| CompanionRuns.RemarksAreWonByDice | app/companion/observer.py:236-251 | In every run every remark but those on game changes and home-comings was won by a roll at or below the probability. |
| CompanionRuns.RunIsTraced | app/companion/passive_screen_watcher.py:73-116 | A run of polls, texts and home-comings leaves the world of the observer calls it amounts to. |
| CompanionRuns.WatchedRunsRemark | app/companion/passive_screen_watcher.py:73-116 | Over any polls, texts and home-comings, every remark is truthful, cooled and capped. |
| CompanionRuns.ShippedRunsRemark | app/companion/observer.py:56-75 | With the shipped settings nothing is left to ask of them. |
| Companion.QuietTicksSpeakOnlyDeepInAfk | app/companion/observer.py:138-172 | A tick without a transition speaks only after half an hour of AFK and on a roll at or below that tier's chance. |
| Companion.GameChangesSpeak | app/companion/observer.py:113-129 | A game entered or left and a home-coming are remarked on if and only if the companion is not muted and is cooled, whatever the dice. |
| Companion.TextsRollTheDice | app/companion/observer.py:104-111 | Every non-empty text makes one unforced reservation and speaks exactly if it is granted; an empty one does nothing. |
| Companion.TicksRollTheDice | app/companion/observer.py:138-172 | A tick reserves, unforced, exactly if it changes the scene, or in AFK after 1800 seconds on a roll up to 0.005, after 3600 up to 0.002; it speaks exactly if that is granted. |
| Companion.RemarksAreAboutTheScene | app/companion/observer.py:104-172 | A remark is about the scene that the call leaves behind; without a transition it is never a repetition, and on a tick it is about AFK. |
| Companion.PollMovesTheMachine | app/companion/passive_screen_watcher.py:73-87 | A poll runs the scene machine through entering the new game or leaving the old one, if the detected game changed, and then a tick. |
| CompanionClasses.CompanionObserver.Reserve | app/companion/observer.py:236-251 | The object's reservation is the value model's: same grant, same governor, cooldown and flag afterwards. |
| CompanionClasses.CompanionObserver.MaybeEmitScene | app/companion/observer.py:205-227 | An emission carries the given scene and repetition mark exactly when a slot was granted. |
| CompanionClasses.CompanionObserver.EmitTransition | app/companion/observer.py:179-203 | The advisor is asked about the entered scene and the current game before the slot is reserved. |
| CompanionClasses.CompanionObserver.AssistantSaid | app/companion/observer.py:104-111 | The whole object graph after an assistant text is the value model's world, and so is the remark. |
| CompanionClasses.CompanionObserver.EnterGame | app/companion/observer.py:113-117 | Likewise for entering a game, with the gate forced. |
| CompanionClasses.CompanionObserver.ExitGame | app/companion/observer.py:119-123 | Likewise for leaving it. |
| CompanionClasses.CompanionObserver.ReturnAfterGap | app/companion/observer.py:125-129 | Likewise for home-coming. |
| CompanionClasses.CompanionObserver.TickOnce | app/companion/observer.py:138-172 | Likewise for a tick, deep-AFK remarks included. |
| CompanionClasses.PassiveScreenWatcher.PollOnce | app/companion/passive_screen_watcher.py:73-116 | A poll over the objects is the value model's poll: report the changed game, then always tick. |
| StreamingExecutor.RunsAreOrderly | app/api/dependencies.py:2997-3057 | In every interleaving of worker, consumer and canceller, what was put is what was yielded, then what the consumer holds, then the queue; nothing is lost, doubled or reordered. |
| StreamingExecutor.StepKeepsOrderly | app/api/dependencies.py:2997-3057 | Each single step keeps that, together with the shape of what the worker has put so far. |
| StreamingExecutor.YieldsAreAPrefix | app/api/dependencies.py:3046-3057 | The yielded items are a prefix of the enqueued ones and never contain the sentinel. |
| StreamingExecutor.UncancelledRunsDeliverEverything | app/api/dependencies.py:3009-3057 | When an uncancelled stream ends, everything enqueued was yielded: streamed items, then exactly one result or error. |
| StreamingExecutor.OfferIsEnqueued | app/api/dependencies.py:3000-3007 | With the flag clear every progress event and every non-empty token is put, last in the queue; an empty token is not, and after the flag nothing is. |
| StreamingExecutor.EndIsEnqueued | app/api/dependencies.py:3009-3041 | Cancelled or not, the result or error of the request is put, and then the sentinel. |
| StreamingExecutor.StreamIsWhatWasOffered | app/api/dependencies.py:3000-3057 | From end to end: an uncancelled stream whose consumer has stopped yielded exactly what the callbacks offered, in order, and then the result or error, in every interleaving in which the callbacks are called one at a time and none fails. |
| StreamingExecutor.CancelSetsTheFlag | app/api/dependencies.py:3000-3005 | Only a cancel of a cancellable stream sets the flag, and nothing clears it. |
| StreamingExecutor.CancelSilences | app/api/dependencies.py:3046-3057 | Once the flag is set, at most the one item already past the test is still yielded. |
| StreamingExecutor.CancelStopsTheConsumer | app/api/dependencies.py:3046-3056 | A cancelled consumer stops within four of its own steps whatever the worker does. |
| StreamingExecutor.CancelThrottlesTheWorker | app/api/dependencies.py:3000-3041 | A cancelled worker puts at most the item in flight, its result or error, and the sentinel. |
| StreamingExecutor.EndedWorkerLetsTheConsumerFinish | app/api/dependencies.py:3040-3057 | Once the worker has ended, enough consumer steps always end the stream. |
| TextStream.ChunkText | app/api/dependencies.py:543-558 | The buffer loop returns the chunks of the specification. |
| TextStream.SegmentsAreTheText | app/api/dependencies.py:550-555 | The segments, concatenated, are the text. |
| TextStream.ChunksConserveInk | app/api/dependencies.py:543-558 | Every character that is not whitespace appears in the chunks exactly once and in order. |
| TextStream.ChunksEndAtStops | app/api/dependencies.py:552-557 | Every chunk but the last ends at a sentence stop (or a clause stop once long enough), none could have been cut earlier, and none is blank. |
| TextStream.BlankTextIsOneChunk | app/api/dependencies.py:558 | A text of whitespace only is passed on whole. |
| TextStream.EmitContract | app/api/dependencies.py:506-541 | The generator yields start, one delta per chunk, the cards in order, end. |
| TextStream.ReplayConservesText | app/api/dependencies.py:506-558 | A client that appends the deltas has the text, up to dropped whitespace. |
| TextStream.ReplayInOrder | app/api/dependencies.py:506-541 | The events one by one: start with meta data, one delta for each chunk in order, the cards in order, end with text, cards, meta data and errors, all under the same ids. |
| TextStream.ChunksHoldTogether | app/api/dependencies.py:543-558 | In characters: no chunk goes on past a full stop, question or exclamation mark or newline, nor past a comma or semicolon once it is long enough; each but the last ends at one. |
| TextStream.CutIs | app/api/dependencies.py:547-554 | The characters at which a buffer is cut, in both widths. |
| Tokens.TokensFit | app/ai/llm_client.py:156-158 | The rounded-up, at-least-one estimate is at most t exactly when the characters fit t tokens. |
| PromptBudget.PruneMessages | app/ai/llm_client.py:198-221 | Pruning as the source does it is the specified pruning. |
| PromptBudget.PopUntilFits | app/ai/llm_client.py:210-213 | The loop drops the oldest message until the rest fits or nothing is left. |
| PromptBudget.DropOldestKeepsLongestFit | app/ai/llm_client.py:210-213 | What remains is the longest fitting suffix: every longer one is over budget. |
| PromptBudget.PruneKeepsLongestSuffix | app/ai/llm_client.py:198-221 | System message first, user message last and unchanged, between them the longest recent suffix that fits; the system text changes only when no history is left. |
| PromptBudget.PruneIsIdempotent | app/ai/llm_client.py:198-221 | Pruning a pruned prompt changes nothing, trimming included. |
| PromptContents.PrunedHistoryIsTheEnd | app/ai/llm_client.py:198-221 | The kept messages are the end of the prompt, at most `max_history_messages` before the last; fewer are kept only if one more would exceed the budget. |
| PromptContents.TrimKeepsBothEnds | app/ai/llm_client.py:180-196 | A trimmed system text is its own start up to 7/10 of the allowance, the marker, and its own end of the rest less 20 but at least 180 characters; only whitespace next to the cuts is lost. |
| PromptContents.HintKeepsBothEnds | app/ai/llm_client.py:147-154 | Likewise a clipped memory hint, with 6/10 and at least 120; one within its limit is only stripped. |
| PromptContents.InputBudgetTable | app/ai/llm_client.py:177-178 | The budget, the output and the margin make up the context, unless less than 512 would be left. |
| PromptContents.ShippedBudgets | app/config.py:58-67 | As shipped: 3584 tokens less the output, but at least 512; an image message costs 264. |
| PromptContents.MessageCosts | app/ai/llm_client.py:156-175 | A message costs 8 and its content; a block adds the estimate of its text, or the fixed cost of an image. |
| PromptContents.ComposedWithoutHistory | app/ai/llm_client.py:236-256 | Without history: the stripped system prompt, the hidden notes below it if there are any, and the user's content. |
| PromptContents.ComposedWithOneMore | app/ai/llm_client.py:247-254 | One more message of history goes unchanged just before the user's, or, from the system, to the end of the first message under its label, unless it is blank. |
| PromptContents.LabelsAre | app/ai/llm_client.py:245-252 | Which label stands before the hidden notes and which before further system texts. |
| PromptBounds.ComposeMessages | app/ai/llm_client.py:236-256 | Composing folds the system messages of the history into the first message, oldest first, and keeps the others in order. |
| PromptBounds.FoldHistory | app/ai/llm_client.py:247-254 | The loop over the history separates system texts from conversation. |
| PromptBounds.ComposedIsNeat | app/ai/llm_client.py:243-252 | A composed system text has at most two characters that stripping would remove. |
| PromptBounds.TrimOvershoot | app/ai/llm_client.py:180-196 | A trimmed system message costs at most 11 tokens more than allowed, or than the 770 the smallest kept text is worth; exactly when is in `PromptOverrun`. |
| PromptBounds.PrunedPromptFits | app/ai/llm_client.py:198-256 | With some conversation, a pruned prompt costs at most 11 tokens over the larger of its budget and what the user message plus 770 tokens force; if the user message leaves 770, prompt plus output fits `ctx_size`; `PromptOverrun` says exactly when the budget is exceeded, and that the 11 are reached. |
| PromptBounds.DefaultsHaveDefaultRates | app/config.py:64-69 | The shipped configuration has the rates these numbers are for. |
| PromptOverrun.TrimExceedsExactly | app/ai/llm_client.py:180-196 | A system message that costs more than some tokens still does after trimming if and only if it is not clipped, or the whitespace stripped at its two cuts does not make up for what the marker adds. |
| PromptOverrun.AllowanceIsExceededExactly | app/ai/llm_client.py:180-196 | From 770 allowed tokens on, a text too long for its allowance exceeds it after trimming if and only if fewer than 14 characters of whitespace are stripped at the two cuts. |
| PromptOverrun.PromptExceedsExactly | app/ai/llm_client.py:198-221 | A prompt of three or more messages exceeds its budget after pruning if and only if the system and user messages alone exceed it, and the system text is not clipped or too little is stripped at the cuts; for every budget and user message. |
| PromptOverrun.ComposedPromptExceedsExactly | app/ai/llm_client.py:198-256 | For composed prompts with some conversation, when the user message leaves 770 tokens: if and only if the two messages exceed the budget, and the stripped system text is within what is left (and so stays) or loses fewer than 14 characters at the cuts. |
| PromptOverrun.LettersOverrun | app/ai/llm_client.py:180-196 | Every system text of letters too long for 770 or more tokens costs exactly 11 more than that when trimmed. |
| PromptOverrun.OverrunIsReached | app/ai/llm_client.py:198-256 | Whole prompts reach the 11 tokens, for every user message and output length that leave 770 and every conversation. |
| PromptOverrun.ShippedOverrun | app/config.py:51-69 | For instance as shipped: 5000 letters, a short conversation and 1024 output tokens are pruned to 2571 tokens, on a budget of 2560. |
| PromptLimits.WithoutConversationNothingIsPruned | app/ai/llm_client.py:199-200 | With no conversation there is no bound at all: two messages are sent at any length. |
| PromptLimits.HintLimitIsRespectedExactly | app/ai/llm_client.py:147-154 | Clipped memory hints respect their limit, for every hint, if and only if the limit is at least 346. |
| MemoryPrompt.FormatKeyValueLines | app/memory/memory_prompt_builder.py:49-64 | The loop takes the specified lines: blank and migrated entries skipped, stop at the first that does not fit. |
| MemoryPrompt.FormatProjectLines | app/memory/memory_prompt_builder.py:67-78 | Likewise for projects. |
| MemoryPrompt.FormatTaskLines | app/memory/memory_prompt_builder.py:81-95 | Likewise for tasks. |
| MemoryPrompt.FormatSemanticLines | app/memory/memory_prompt_builder.py:98-109 | Likewise for memories. |
| MemoryPrompt.TaskLineIsNeverEmpty | app/memory/memory_prompt_builder.py:86-90 | A task line is never blank, so that loop needs no test for it. |
| MemoryPrompt.SummarizeMemories | app/memory/memory_prompt_builder.py:9-46 | The whole builder returns the specified block. |
| MemoryPromptBounds.FitLinesTakesAPrefix | app/memory/memory_prompt_builder.py:60-63 | A slot takes the longest prefix of its candidate lines that its budget pays for. |
| MemoryPromptBounds.JoinedIsBounded | app/memory/memory_prompt_builder.py:9-42 | For every bundle and policy the joined block is bounded by its slots, headings and bullets. |
| MemoryPromptBounds.KnownPoliciesHaveRoom | app/memory/memory_injection_policy.py:47-64 | Every category's slots leave that bound within its character budget. |
| MemoryPromptBounds.TruncationIsUnreachable | app/memory/memory_prompt_builder.py:42-46 | So for every bundle and category the block fits and is returned whole; the truncating branch is dead. |
| MemoryPromptBounds.SummaryIsBounded | app/memory/memory_prompt_builder.py:43-46 | Under an arbitrary policy the block exceeds its budget by at most 4 characters. |
| MemoryPromptBounds.TruncationOvershoots | app/memory/memory_prompt_builder.py:46 | A truncated block exceeds its budget if and only if one of its last four kept characters is not whitespace, and by exactly 4 if and only if the last is not. |
| MemoryPromptTexts.BlockReads | app/memory/memory_prompt_builder.py:9-43 | The whole block, for every bundle and policy: opening, profile and environment in one section, project, task, experience, in this order, each only if it has lines, every line a bullet under its own heading, blank lines between sections. |
| MemoryPromptTexts.CutBlockReads | app/memory/memory_prompt_builder.py:44-46 | A block over its budget is its own start up to 18 characters below it, without the whitespace before the cut, and the marker. |
| MemoryPromptTexts.EntryReads | app/memory/memory_prompt_builder.py:49-58 | A migrated entry has no line, a preference is its value unchanged, any other is key, colon and value without whitespace at either end. |
| MemoryPromptTexts.ProjectReads | app/memory/memory_prompt_builder.py:67-71 | A project is its module in brackets and its summary. |
| MemoryPromptTexts.TaskEntriesInOrder | app/memory/memory_prompt_builder.py:81-90 | A task is goal, step, the last three done steps, the block and the status, in this order, however many steps there are. |
| MemoryPromptTexts.LinesInOrder | app/memory/memory_prompt_builder.py:49-64 | Candidate lines come in the order of their entries, and exactly the empty ones are skipped. |
| MemoryPromptTexts.PolicyTable | app/memory/memory_injection_policy.py:47-64 | Which categories include project memories, and the character budget of each. |
| MemoryPromptTexts.SlotTable | app/memory/memory_injection_policy.py:47-64 | The character budgets of the slots of each category. |
| MemoryPromptTexts.EnvironmentGetsHalf | app/memory/memory_prompt_builder.py:11-13 | The environment has half of the profile's budget, rounded down, but at least 80. |
| MemoryPromptBounds.BudgetIsExceeded | app/memory/memory_prompt_builder.py:43-46 | One memory of 300 letters, under a policy that no category has, gives a block 4 characters over its budget. |
| SkillRouter.HeuristicScores | app/lazy_skill_router/router.py:200-260 | The loop fills the score table of the specification, later skills of the same name overwriting in place. |
| SkillRouter.ScoreCaps | app/lazy_skill_router/router.py:220-258 | With priorities up to 100 a social turn scores at most 0.7345, and the screen skill on anything but a local visual request at most 0.2975. |
| SkillRouter.ConfidenceIsAFraction | app/lazy_skill_router/router.py:131-198 | Whatever the priorities and whatever the model claims, the confidence of a decision lies in [0, 1]. |
| SkillRouter.CapsAreReached | app/lazy_skill_router/router.py:220-258 | Both caps are attained, so the gap to the 0.75 threshold is exactly as small as it looks. |
| SkillRouter.WithoutAModelSmallTalkIsRouted | app/lazy_skill_router/router.py:165-184 | Without a model the fallback does route small talk, and a request with nothing to do with the screen, to the screen skill. |
| SkillRouter.ScoresAreFromSkills | app/lazy_skill_router/router.py:218-260 | Every entry of the table is the score of some registered skill. |
| SkillRouter.BestIsGreatest | app/lazy_skill_router/router.py:132 | The winner is in the table and nothing in it scores higher. |
| SkillRouter.BestIsCapped | app/lazy_skill_router/router.py:131-132 | The caps carry over to the heuristic's winner. |
| SkillRouter.SocialTurnsAreAnsweredDirectly | app/lazy_skill_router/router.py:131-198 | With a usable model reply a social turn always ends in the direct answer; the heuristic cannot override it. |
| SkillRouter.ScreenNeedsLocalVisualRequest | app/lazy_skill_router/router.py:131-198 | Without a local visual request the screen skill is returned if and only if there is no usable reply, it wins the heuristic with at least 0.25, and it loads. |
| SkillRouter.SocialTurnsAreRoutedAwayExactly | app/lazy_skill_router/router.py:131-198 | A social turn is routed to a skill if and only if there is no usable reply and the applicable fallback loads. |
| SkillRouter.RoutedBundlesAreLoaded | app/lazy_skill_router/router.py:571-609 | Every decision is either the direct answer, and flagged so, or a bundle that loaded. |
| RoutingTable.ChoiceIsReturned | app/lazy_skill_router/router.py:131-163 | The model's choice is followed: a registered skill or the direct answer that the policy has nothing against, at 0.20 or more or without a strong heuristic winner, is returned with its own confidence and reason, if its bundle loads. |
| RoutingTable.ConfidenceIsClamped | app/lazy_skill_router/router.py:334-362 | A confidence outside [0, 1] counts as the nearer end. |
| RoutingTable.SmallTalkBecomesDirect | app/lazy_skill_router/router.py:364-385 | On a social turn any chosen skill becomes the direct answer at 0.80 or more. |
| RoutingTable.ScreenWithoutVisualIsDiverted | app/lazy_skill_router/router.py:386-403 | Without a local visual request the screen skill becomes web research at 0.65 or more if the request is one, and otherwise the direct answer at 0.55 or more. |
| RoutingTable.DirectOnVisualBecomesScreen | app/lazy_skill_router/router.py:404-416 | A direct answer to a local visual request that is no web request becomes the screen skill at 0.60 or more. |
| RoutingTable.UnsureChoiceYields | app/lazy_skill_router/router.py:157-180 | Below 0.20 a choice yields to a heuristic winner of 0.75 or more. |
| RoutingTable.HeuristicDecides | app/lazy_skill_router/router.py:164-198 | Without a usable reply: the winner from 0.25 on, else the screen skill or web research at 0.42, else the direct answer at 0.5. |
| RoutingTable.UnusableRepliesAreIgnored | app/lazy_skill_router/router.py:334-362 | A garbled reply and one naming no registered skill route like no reply. |
| SkillScores.NoSignalNoScore | app/lazy_skill_router/router.py:200-260 | Without any signal a skill scores 0. |
| SkillScores.KeywordsAdd | app/lazy_skill_router/router.py:200-260 | Trigger keywords add 0.5 in proportion to the hits, all of it at two hits or three tenths of the keywords, whichever is more. |
| SkillScores.DescriptionAdds | app/lazy_skill_router/router.py:200-260 | Description words add 0.15 in proportion to those in the request. |
| SkillScores.PriorityAdds | app/lazy_skill_router/router.py:200-260 | A point of priority adds 0.0005. |
| SkillScores.PreviousSkillAdds | app/lazy_skill_router/router.py:200-260 | Having been used last adds 0.15, except on a social turn. |
| SkillScores.WebAdds | app/lazy_skill_router/router.py:200-260 | A web request adds 0.18 to web research alone. |
| SkillScores.LocalVisualAdds | app/lazy_skill_router/router.py:200-260 | A local visual request adds 0.18 to the screen skill alone, and 0.43 during follow-ups. |
| SkillScores.ScoreIsDamped | app/lazy_skill_router/router.py:200-260 | The sum is cut to 0.35 for the screen skill without a local visual request, to 0.9 for web research without a web request, to 0.65 on a social turn, and to 1. |
| SkillScores.EverySkillIsScored | app/lazy_skill_router/router.py:200-260 | The table scores every registered name once, as the last skill under that name. |
| SkillScores.BestIsFirst | app/lazy_skill_router/router.py:132 | Of equal winners the first in the table wins. |
| Similarity.CauchySchwarz | app/memory/memory_vector_store.py:168-174 | The squared numerator is at most the product of the squared norms. |
| Similarity.CosineRange | app/memory/memory_vector_store.py:168-174 | The score of any two vectors lies in [-1, 1], zero norms and unequal lengths included. |
| Similarity.EmbeddingCosineRange | app/memory/memory_vector_store.py:168-174 | For vectors without negative components it lies in [0, 1]. |
| Similarity.SelfSimilarity | app/memory/memory_vector_store.py:168-174 | A non-zero vector scores 1 with itself. |
| Similarity.Embed | app/memory/memory_vector_store.py:18-27 | The array loop returns the bucket counts divided by their norm. |
| Similarity.EmbeddingIsUnit | app/memory/memory_vector_store.py:18-27 | An embedding has no negative component, and length 1 unless the text has no tokens. |
| Relevance.Overlap | app/memory/relevance_scorer.py:53-55 | The source's sum of minima is the size of the multiset intersection. |
| Relevance.OverlapBound | app/memory/relevance_scorer.py:53-56 | The overlap is at most each token count, so its square is at most their product. |
| Relevance.KeywordScoreRange | app/memory/relevance_scorer.py:46-56 | Hence the keyword score lies in [0, 1]. |
| Relevance.SelfOverlapIsFull | app/memory/relevance_scorer.py:46-56 | A text scores 1 against itself. |
| Relevance.VectorScoreRange | app/memory/memory_vector_store.py:18-27 | The similarity of the embeddings of any two texts lies in [0, 1]. |
| Relevance.AgeWeightRange | app/memory/age_decay.py:22-41 | The age weight lies in (0, 1], for missing, future and any other time stamps and any half-life. |
| Relevance.CombinedRange | app/memory/relevance_scorer.py:76-85 | Every combined score lies in [0, 1], with convex weights, the vector part being the similarity of two embeddings and the freshness part an age weight. |
| Relevance.DefaultsAreConvex | app/memory/relevance_scorer.py:70-72 | The default weights are convex. |
| Relevance.RankedIsSorted | app/memory/relevance_scorer.py:97 | Sorting gives a descending permutation. |
| Relevance.ScoreRecords | app/memory/relevance_scorer.py:66-98 | The loop scores every record once and ranks the result. |
| Relevance.FindRelevant | app/memory/relevance_scorer.py:101-110 | The found records are those of the specified top. |
| Relevance.RelevantIsTopK | app/memory/relevance_scorer.py:109-110 | The result is descending, all of it good enough, as long as asked for or as there are good ones, and nothing left out outranks anything returned. |
| Relevance.VectorWeighs | app/memory/relevance_scorer.py:80-84 | A change of the similarity moves the score by the vector weight times that change. |
| Relevance.FreshnessWeighs | app/memory/relevance_scorer.py:80-84 | A change of the age weight moves it by the freshness weight times that change. |
| Relevance.KeywordsWeigh | app/memory/relevance_scorer.py:80-84 | A change of the keyword score moves it by the keyword weight times that change. |
| Relevance.NothingScoresNothing | app/memory/relevance_scorer.py:76-85 | A memory with no similarity, no shared word and no freshness scores 0. |
| Relevance.ShippedWeights | app/memory/relevance_scorer.py:80-84 | As shipped a memory matched only by meaning scores 0.6, only by words 0.25, only fresh 0.15. |
| Relevance.MeaningOutranksWords | app/memory/relevance_scorer.py:97-110 | So among the found memories one matched fully by meaning alone precedes one matched fully by words alone. |
| Relevance.RankingIsStable | app/memory/relevance_scorer.py:97 | Memories with equal scores keep their order. |
| Relevance.ScoreTimesRoot | app/memory/relevance_scorer.py:46-63 | The keyword score times the geometric mean of the lengths is the overlap. |
| Relevance.AgeWeightTable | app/memory/age_decay.py:22-41 | No time stamp weighs 0.5, the future and now 1, one half-life 0.5; half-lives under a tenth of a day count as a tenth. |
| Similarity.CosineTimesNorms | app/memory/memory_vector_store.py:168-174 | The score times both norms is the inner product; vectors of unequal length score 0. |
| Similarity.DotOfAppended | app/memory/memory_vector_store.py:168-174 | A further component adds the product of the two. |
| IdLists.LessIsTotal | app/memory/memory_vector_store.py:132 | The order on ids is total and strict. |
| IdLists.FirstDifferenceDecides | app/memory/memory_vector_store.py:132 | The first difference decides, and a proper prefix comes first. |
| IdLists.LeastOf | app/memory/memory_vector_store.py:132 | So every group has a least id to keep. |
| IdLists.ReadOfJoin | app/memory/memory_vector_store.py:132-135 | Reading a concatenated list back gives the comma pieces of each id, in order, and nothing else. |
| IdLists.CleanIdsReadBack | app/memory/memory_vector_store.py:132-135 | An id comes back whole if and only if it is not empty and has no comma. |
| IdLists.ReadJoinRoundTrip | app/memory/memory_vector_store.py:132-135 | So lists of such ids survive being concatenated and split again. |
| IdLists.UncleanIsNeverRead | app/memory/memory_vector_store.py:135 | An empty id, or one with a comma, never comes back. |
| MemoryMaintenance.VectorMemoryStore.MergeDuplicates | app/memory/memory_vector_store.py:129-139 | The pass removes exactly what its groups tell it to drop. |
| MemoryMaintenance.VectorMemoryStore.CapCollectionSize | app/memory/memory_vector_store.py:141-149 | Removes everything ranked past the limit and returns how many that were. |
| MemoryMaintenance.MergeKeepsEachPairOnce | app/memory/memory_vector_store.py:129-139 | The intended result keeps every (content, scope) pair, in exactly one row. |
| MemoryMaintenance.DeletedExactly | app/memory/memory_vector_store.py:129-139 | The pass deletes a row if and only if its id is a comma piece of some duplicated row's id and the row is not the one that group keeps. |
| MemoryMaintenance.MergeIsExactIff | app/memory/memory_vector_store.py:129-139 | The pass leaves exactly the intended rows if and only if every row but a leader has an id without commas, and no leader's id is a comma piece of a duplicated row of another pair. |
| MemoryMaintenance.CleanTablesAreMergeable | app/memory/memory_vector_store.py:129-139 | A table without commas or empty ids meets that condition. |
| MemoryMaintenance.UncleanDuplicatesSurvive | app/memory/memory_vector_store.py:135-139 | A duplicate under an id with a comma, or an empty one, survives every pass. |
| MemoryMaintenance.PairIsLost | app/memory/memory_vector_store.py:129-139 | A row alone with its pair, whose id is a comma piece of a duplicated row's id, is deleted and its pair lost. |
| MemoryMaintenance.LostPairExample | app/memory/memory_vector_store.py:129-139 | For instance under the ids "a,b", "c" and "a". |
| MemoryMaintenance.VectorMemoryStore.AddExperience | app/memory/memory_vector_store.py:35-77 | Storing an experience rewrites its row and keeps the time of its last access. |
| MemoryMaintenance.WrittenIdsAreClean | app/memory/memory_writer.py:78-80 | The writer's ids have no commas. |
| MemoryMaintenance.IdsAgreeExactly | app/memory/memory_writer.py:78-80 | Two experiences share an id if and only if the first sixteen digits of their digests agree. |
| MemoryMaintenance.ChangesKeepWritten | app/memory/memory_manager.py:172-183 | Whatever experiences are stored, touched or deleted, every row sits under the id made from its own content. |
| MemoryMaintenance.NothingToMergeInBuiltTables | app/memory/memory_vector_store.py:129-139 | So in every table the program itself builds no pair is ever duplicated: the grouping is empty and the pass changes nothing. |
| MemoryMaintenance.CapKeepsTheBest | app/memory/memory_vector_store.py:141-149 | Capping keeps min(max, count) rows, and no kept row ranks below a dropped one. |
| MemoryMaintenance.CapKeepsTheMostImportant | app/memory/memory_vector_store.py:141-149 | No dropped row is more important than a kept one, nor as important and accessed later, nor besides accessed at the same time and updated later. |
| MemoryMaintenance.AccessesAndDeletions | app/memory/memory_vector_store.py:121-149 | A noted access dates that row alone, in that column alone; a deletion takes exactly its rows. |
| MemoryMaintenance.StructuredMemoryStore.DeleteExpired | app/memory/memory_store.py:255-262 | Exactly the rows with a past, non-empty expiry go; the count is returned; projects stay. |
| MemoryMaintenance.StructuredMemoryStore.DecayImportance | app/memory/memory_store.py:264-273 | Every importance above the floor is multiplied and floored, in both tables; nothing else changes. |
| MemoryMaintenance.DecayPasses | app/memory/memory_store.py:264-273 | n passes turn an importance x above the floor into max(0.05, factor^n * x). |
| MemoryMaintenance.LowImportanceStays | app/memory/memory_store.py:264-273 | An importance of at most 0.05 is left alone by any number of passes. |
| MemoryMaintenance.ExpiryTable | app/memory/memory_store.py:255-262 | A row expires once its expiry lies in the past, not in that very moment, and stays expired; without an expiry it never does. |
| MemoryMaintenance.DecayKeepsOrder | app/memory/memory_store.py:264-273 | A pass never inverts the order of two rows, touched or not. |
| MemoryMaintenance.PassesKeepOrder | app/memory/memory_store.py:264-273 | Nor do any number of passes. |
| MemoryMaintenance.MemoryPruner.Prune | app/memory/memory_pruner.py:13-21 | The composed pass: expiry, decay, merge and cap, in this order, on both stores, with the two counts it reports. |
| MemoryMaintenance.MaintenanceMergesThenCaps | app/memory/memory_pruner.py:13-21 | After one pass over any table at most `max_semantic_items` rows remain, the best of what merging left; where merging is exact, every remaining pair is unique. |
| NewsCache.ViolatesExactly | app/news/news_cache.py:84-130 | An upsert violates the unique hash if and only if the hash sits under an empty id and the article has another one. |
| NewsCache.UpsertKeepsKeys | app/news/news_cache.py:84-130 | A successful upsert keeps both keys unique, removes no row, leaves other rows alone, and never turns stored content or markup back into null. |
| NewsCache.UpsertStores | app/news/news_cache.py:84-130 | What is stored: the given hash or else the digest, content and markup if newly supplied and otherwise those of the row, and all other columns as supplied; no other row changes. |
| NewsCache.UpsertFindsItsRow | app/news/news_cache.py:84-100 | It is stored under the id of the row that has its hash, if one has, and otherwise under its own. |
| NewsCache.SecondUpsertFindsTheRow | app/news/news_cache.py:84-130 | Storing the stored article again changes neither table nor id. |
| NewsCache.UpsertsNeverFail | app/news/news_cache.py:84-130 | No sequence of upserts with non-empty ids ever violates a key or loses what was stored. |
| NewsCache.FetchDeduplicates | app/news/news_fetcher.py:18-32 | The returned batch has pairwise different hashes, stands for every hash of the headlines, and leaves the table sound. |
| NewsCache.AnalyzeMirrors | app/news/news_service.py:67-72 | After the analysis loop the table holds, for every pair's id, the analysis saved last under it. |
| NewsCache.FillInMirrors | app/news/news_service.py:74-90 | The full-text loop keeps that, although it rewrites rows, analyses and list together and skips failed fetches. |
| NewsCache.FetchKeepsTheFirst | app/news/news_fetcher.py:18-32 | The batch is the headlines that are the first of their hash, in order, each with its own text. |
| NewsCache.FillOnePutsTheTextInPlace | app/news/news_service.py:76-90 | A fetched text replaces exactly the pairs of its id, with its own analysis, which is saved; its content is in the table. |
| NewsCache.TargetsAreWanted | app/news/news_service.py:74-76 | As many full texts are fetched as analysed articles ask for one. |
| NewsCache.NothingWantedNothingFetched | app/news/news_service.py:62-90 | If no analysis asks for a full text a refresh ends with the analysed batch. |
| NewsCache.MirrorAgreesExactly | app/news/news_service.py:67-90 | Such a table agrees with every returned pair if and only if no id was analysed two ways. |
| NewsCache.RefreshAgreesExactly | app/news/news_service.py:62-90 | After a whole refresh the tables are sound, there is one pair per batch article, and table and pairs agree exactly when no returned id has two analyses. |
| NewsCache.FetchedAreHomed | app/news/news_fetcher.py:18-32 | Every hash of the fetched batch that is still stored is stored under the id its article was given. |
| NewsCache.RefreshKeepsIds | app/news/news_service.py:67-90 | The returned pairs carry exactly the ids left by the batch's upserts, whatever is classified or fetched later. |
| NewsCache.RefreshAgreesIffIdsDistinct | app/news/news_service.py:62-90 | The analyses table agrees with every returned pair, for every classifier and all full texts under non-empty ids, if and only if the ids left after the batch's upserts are distinct. |
| NewsCache.SharedIdDisagrees | app/news/news_service.py:67-72 | Two batch articles with one id are told apart by some classifier, and then the table holds only one of the two analyses. |
| NewsCache.RetitledPageDisagrees | app/news/news_provider_ithome.py:85-105 | Two headlines of one page under different titles share an id but not a hash, so with a cache that knows neither some refresh disagrees. |
| NewsCache.RetitledPageExample | app/news/news_provider_ithome.py:101-105 | For instance one page listed twice under an empty cache. |
| NewsCache.RankingKeepsAgreement | app/news/news_ranker.py:14-16 | Ranking the pairs, in whatever order, changes nothing about that. |
| NewsCache.DistinctIdsAgree | app/news/news_service.py:62-90 | In particular any refresh of a batch with distinct ids agrees. |
| NewsCache.NewsService.TryUpsert | app/news/news_cache.py:84-130 | On any table with unique hashes, empty ids included, the object's upsert is the specified one, and fails, leaving the table alone, exactly when the hash sits under an empty id and the article has another. |
| NewsCache.NewsService.UpsertArticle | app/news/news_cache.py:84-130 | Between non-empty ids it never fails. |
| NewsCache.NewsService.FetchHeadlines | app/news/news_fetcher.py:18-32 | The loop with its set of seen hashes is the specified de-duplication. |
| NewsCache.NewsService.AnalyzeBatch | app/news/news_service.py:67-72 | The analysis loop is the specified one. |
| NewsCache.NewsService.FillInContent | app/news/news_service.py:76-90 | The full-text loop is the specified one. |
| NewsCache.NewsService.RefreshAndAnalyze | app/news/news_service.py:62-90 | The three loops in sequence leave the specified state and pairs, and the cache sound. |

## Left out

- HardCapHoldsEverywhere: holds for windows shortened by the lag between the two clock readings of a call, because beyond that it is false (CapCoversExactly).
- AfkEntriesAreFarApart: holds for sequential calls; OneTickerKeepsSpacing says what is left when calls interleave.
- OneTickerKeepsSpacing: excludes `force_scene`, which may enter AFK at any time, and takes one ticking thread, because the watcher is the only caller of the tick. Stopping the watcher waits two seconds for its thread and then drops it, so that starting it again during a slow poll leaves two; that is not modelled.
- RefreshAgreesExactly: covers fetching, analysing and filling in; the ranker enters only as some reordering (RankingKeepsAgreement), and the observer's records at the end of the refresh are not modelled.
- CombinedRange: takes the number of days as given, and one half to a power as some function into (0, 1]; the parsing of time stamps is not modelled.
- EmbeddingIsUnit: takes the token buckets as given; the tokenizer and Python's `hash` are not modelled.
- NothingToMergeInBuiltTables: takes the digest as some function of the content into hex digits; rows put into the database by other programs are covered by MergeIsExactIff only.
- Floating point: arithmetic is over `real`, with 1.3, 4.2 and the other constants exact; rounding, infinities and NaN are not modelled. A square root is a given non-negative number with the right square.
- `force_scene` and `force_emit`, `observe_game_event`, the governor's `reset` and `recent_count`: they bypass the guards; only `force_scene` appears, in the interleaved scene machine.
- Listeners, subscribers, logging, event callbacks and JSON encoding are taken not to raise and to have no effect beyond the modelled ones; `Companion` has the one listener that `start_companion` subscribes, and nothing before it is subscribed.
- Interleavings of the observer and the memories across threads: `SlotReservation` admits them through unordered `now` readings, `Companion` is sequential.
- Quip text, category, source and wall-clock time, the payload of transitions, window titles and the watcher's snapshot: presentation only. The deep-AFK remark is taken to have a text to pick.
- Loading and saving the persistent memory, and the gap since the last session.
- An exception in the worker that is not an `Exception`, and a consumer that abandons the generator.
- A reply, message or memory whose fields have unexpected types: what `str` prints of them is an input, and a text block's text is a string.
- The parsing of the model's JSON reply, `load_bundle` and its cache, and the keyword tables and regular expressions behind the text tests.
- The results of the SQL grouping and ordering queries are inputs constrained to be a grouping and a ranking; ties may come in any order. SQL's other behaviour, transactions included, is not modelled.
- Negative `max_items`, `top_k` and `max_memory_hint_chars`, which Python would take as slices from the end.
- `upsert_structured_memory` and the other single-statement upserts, queries and `search`: easy members beside the two-key upsert.
- News articles are values: that one object sits both in the batch and in the result list, and changes its id in place, is not modelled; nor are briefings, classification and crawling.
- The rest of `app/api/dependencies.py`, provider routing, browser automation, server management and the user interface.
