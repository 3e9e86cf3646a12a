# The Withering Garden — a verified model of its simulation core

*Godspeed: the Withering Garden* is an idle ritual game. Seeds are planted,
fed and left to mature in a garden whose **entropy** gauge rises with neglect
and starvation. A mature seed may **awaken** into a god that carries a boon and
a price. Seasons change on a timer. A run ends in one of three endings and its
score goes onto a five-entry scoreboard. Around that core sit:

- a **threshold binder** that turns entropy changes into audio and effect
  events;
- a **tag parser** for the `[soft] [loud] [loop] [mirror]` stage directions in
  story text;
- the **story engine** that picks the next line and corrupts text at high
  entropy;
- a **loop analyzer** that decides where an ambient sound should loop;
- the player's **settings**.

The project models those six parts in Dafny and proves what each promises.

| module | file | models |
|---|---|---|
| `Common` | common.dfy | `Option`, random draws in [0, 1), `Math.min`/`Math.max`/clamp, `list[Math.floor(d * n)]`, `indexOf` |
| `Text` | text.dfy | ASCII `toLowerCase`, `includes`, ECMAScript `trim` |
| `GameTypes` | game_types.dfy | seeds, gods, boons, prices, seasons, stats, domain alignments |
| `Events` | events.dfy | the closed set of events the audio and effect buses carry |
| `Bindings` | bindings.dfy | `EntropyBindings` as a class with the two buses as append-only logs |
| `Entropy` | entropy.dfy | `toFixed(2)` rounding, the displayed gauge, the tier ladder, one `modifyEntropy` step as a value |
| `Ecology` | ecology.dfy | seed growth, starvation, awakening, seasons and the score as functions |
| `Dominance` | dominance.dfy | the 40 % rule of `determineDominantGod` |
| `Store` | store.dfy | the game store as the class `GardenStore`, one method per command |
| `Tags` | tags.dfy | `parseTags`, `hasTag`, `stripTags`, `getTags` |
| `Story` | story.dfy | `nextLine` and the built-in fallback story |
| `Corruption` | corruption.dfy | `applyEntropy`'s three corruption tiers |
| `LoopAnalysis` | loop_analyzer.dfy | `LoopAnalyzer`: downsampling, cross-correlation, peak width, loop points, extension dispatch |
| `Settings` | user_settings.dfy | `UserSettingsManager` with its settings objects and their sharing |

**How time and randomness are modelled.** `Date.now()`, `Math.random()` and
the generated ids are parameters: `clock`, a `Draw` in [0, 1), or an id
string. The two calls of `applyEntropy` that draw a varying number of random
values take a stream `nat -> Draw` and a cursor. `tickPersistentSeeds` draws
once per starving seed. Its draws are a function from seed id to `Draw`.

**Iteration order.** The JavaScript insertion order of `persistentSeeds` is
kept as the sequence `seedOrder` next to the map, because both
`attemptAwakening` and the event order of `tickPersistentSeeds` depend on it.

**Behaviour the model keeps as written:**

- `feedSeed` takes 0.03 entropy and fires its two events even for an absent or
  terminal seed.
- `attemptAwakening` takes 0.05 entropy and fires `god.spawn` and `god.awaken`
  even when nothing awakens.
- `checkEndings` declares an ending on a run that is already over, so endings
  are not exclusive.
- No command changes `stats.starved` or `stats.omenCount`.
- A MATURE seed can still starve.
- Two clocks are mixed. The surface passes the animation-frame time as `now`
  (src/components/ClickSurface.tsx:258-283), while `seasonUntil` and `lastInteractionTime`
  are stamped with `Date.now()` (src/lib/store.ts:122 and 600). With the real clocks
  `tickSeasons` then never advances and the idle test of `decay` never holds.
  The model keeps `now` and `clock` as separate parameters, as written.
- `checkEndings` starts a new 30 s StoneSleep timer on every call while a
  live garden is empty, although its comment says "if not already started"
  (`Store.EmptyGardenStacksTimers`).
- Every `.ogg` file decodes to one silent second, so it never loops. The
  drone test of loopAnalyzer.test.ts expects the opposite. The model follows
  the code.

## Model

| member | source | states |
|---|---|---|
| `Common.Clamp` | src/lib/store.ts:574 | the clamped value lies in [lo, hi], equals x when x is inside, and equals the nearer bound otherwise |
| `Common.Pick` | src/lib/store.ts:668 | the index `Math.floor(d * n)` a draw selects is a valid index of an n-element list |
| `Common.IndexOf` | src/audio/loopAnalyzer.ts:156 | `indexOf` returns a position holding x with no earlier occurrence of x |
| `Text.Lower` | src/lib/tags.ts:15 | lower-casing keeps the length and maps each character by ASCII lower-casing |
| `Text.TrimIsMiddle` | src/lib/tags.ts:22 | `trim` returns a contiguous piece of its input, and everything cut from either end is white space |
| `Text.TrimEnds` | src/lib/tags.ts:22 | trimmed text neither starts nor ends with white space |
| `Text.TrimUntouched` | src/lib/tags.ts:22 | text that neither starts nor ends with white space is its own trim |
| `Bindings.EntropyBindings.constructor` | src/lib/entropyBindings.ts:19-26 | a binder starts at last entropy 0 with an empty click history and empty buses |
| `Bindings.EntropyBindings.CheckThresholdCrossing` | src/lib/entropyBindings.ts:72-86 | an enter event on both buses when the value rises to or past t, an exit event when it falls below t, else nothing |
| `Bindings.EntropyBindings.TriggerSeizure` | src/lib/entropyBindings.ts:88-92 | `entropy.seizure` goes onto both buses |
| `Bindings.EntropyBindings.UpdateEntropy` | src/lib/entropyBindings.ts:56-70 | the new value is remembered, and both buses get the four crossings from the old value in the order 40, 60, 80, 90, then the seizure |
| `Bindings.EntropyBindings.RecordClick` | src/lib/entropyBindings.ts:41-54 | the history keeps exactly the clicks at most 800 ms old, including this one, and `entropy.tick.fast` goes on the audio bus alone once three remain |
| `Bindings.EntropyBindings.Emit` | src/lib/entropyBindings.ts:95-235 | every pass-through `on*` emitter appends its one event to both buses |
| `Bindings.EntropyBindings.OnEntropyTick` | src/lib/entropyBindings.ts:122-131 | the fast or normal tick goes onto both buses |
| `Bindings.EntropyBindings.OnCorruptionInject` | src/lib/entropyBindings.ts:112-120 | the injection goes onto both buses, then one tag event per tag, in order, onto the audio bus only |
| `Bindings.Recent` | src/lib/entropyBindings.ts:46-48 | the filter keeps exactly the timestamps within 800 ms of now |
| `Bindings.RecentSnoc` | src/lib/entropyBindings.ts:43-48 | a pushed click is kept exactly when it lies within the window, after the kept earlier clicks, repeats included |
| `Bindings.TagEvents` | src/lib/entropyBindings.ts:117-119 | one `corruption.tag.<tag>` event per tag, in tag order |
| `Bindings.ThresholdEventsEdges` | src/lib/entropyBindings.ts:61-85 | for each threshold: an enter event iff old < t ≤ new, an exit event iff new < t ≤ old, never both |
| `Bindings.SeizureWithEnter90` | src/lib/entropyBindings.ts:66-69 | the seizure is emitted exactly when `entropy.enter.90` is, and it comes last |
| `Bindings.NoCrossingNoEvents` | src/lib/entropyBindings.ts:56-70 | a move that crosses no threshold, and in particular a repeated value, emits nothing |
| `Bindings.CheckOrder` | src/lib/entropyBindings.ts:61-64 | 0→45 emits only enter 40, 65→55 emits only exit 60, 0→95 emits the four enters then the seizure, 95→0 the four exits |
| `Bindings.BinderScenario` | src/lib/entropyBindings.test.ts:24-48 | a fresh binder moved to 45, then 65, then 55 logs enter 40, enter 60, exit 60 on both buses |
| `Bindings.RunAlternates` | src/lib/entropyBindings.ts:56-86 | over any sequence of updates, each threshold's enter and exit events alternate, starting on the side of the initial value and ending on the side of the last one |
| `Entropy.Display` | src/lib/store.ts:574 | the displayed entropy is always in [0, 100] |
| `Entropy.Round2Near` | src/lib/store.ts:574 | `toFixed(2)` moves a value by at most 0.005 and lands on a hundredth |
| `Entropy.DisplayExact` | src/lib/store.ts:574 | a hundredth inside [0, 100] is displayed unchanged |
| `Entropy.TierStep` | src/lib/store.ts:637-645 | each tier holds exactly the values from its floor up to the next floor (10, 25, 50, 75, 90), Seizure holds exactly the values from 90 on, and the tier never falls as entropy rises |
| `Entropy.TierChange` | src/lib/store.ts:589-592 | tier exit(old) then enter(new) exactly when the tiers differ, and nothing otherwise |
| `Entropy.ModifyKeepsGauge` | src/lib/store.ts:573-574 | after any delta: raw is old raw + delta, or 0 if that would be negative; the shown value is raw rounded and clamped to [0, 100]; the binder has heard the shown value |
| `Entropy.ModifyEventsOrder` | src/lib/store.ts:589-595 | the tier events come before the threshold events and appear exactly when the tier changes |
| `Entropy.ModifyAllKeepsGauge` | src/lib/store.ts:570-601 | over any sequence of deltas raw stays ≥ 0 and the shown value stays in [0, 100], equal to rounded raw |
| `Ecology.StarveProbability` | src/lib/store.ts:777-782 | the starvation chance is clamped to [0.02, 0.7] |
| `Ecology.NewSeed` | src/lib/store.ts:684-694 | a new seed is PLANTED with food 0.35, maturity 0, never fed, and starvation risk in [0.10, 0.22) |
| `Ecology.FedSeedSpec` | src/lib/store.ts:709-714 | feeding gives food min(1, food + 0.25), records the time, turns PLANTED into GROWING and keeps other states |
| `Ecology.SeedAfterTickSpec` | src/lib/store.ts:753-773 | a STARVED or AWAKENED seed is left alone with no events; food stays ≥ 0, maturity stays ≤ 1 and does not fall when dt ≥ 0 |
| `Ecology.MatureTransition` | src/lib/store.ts:770-773 | `seed.mature` fires exactly when a live seed that was not yet MATURE reaches maturity 1 |
| `Ecology.StarvationRule` | src/lib/store.ts:776-788 | a live seed STARVES exactly when its food is ≤ 0.05 and the draw is below the clamped chance, and then fires expire and starve |
| `Ecology.MatureSeedCanStarve` | src/lib/store.ts:776 | a MATURE seed with no food starves on a low draw |
| `Ecology.StarvedIdsSnoc` | src/lib/store.ts:752-802 | one more seed at the end of the insertion order adds its id to the starved ids exactly when it starves |
| `Ecology.TickFoldStarved` | src/lib/store.ts:752-802 | the removal timers are the ids of the starving seeds, one each, in insertion order |
| `Ecology.TickFoldNoStarvation` | src/lib/store.ts:784-788 | without starvation the entropy gauge is left as it was |
| `Ecology.MatureIds` | src/lib/store.ts:810 | the candidates are exactly the MATURE seeds; a single id is a candidate exactly when its seed is MATURE |
| `Ecology.MatureIdsAppend` | src/lib/store.ts:810 | the candidates of two runs of ids are those of the first run followed by those of the second, so insertion order is kept |
| `Ecology.AwakenProbability` | src/lib/store.ts:816-824 | the awakening chance is clamped to [0.02, 0.85] |
| `Ecology.AwakenProbabilityValues` | src/lib/store.ts:817-822 | the chance is 0.31 with no bias or boons, 0.41 with a bias, 0.16 from entropy 70, and Harvest and Echo add 0.08 and 0.05 |
| `Ecology.AwakenedGod` | src/lib/store.ts:828-841 | the god stands where the seed stood, is born from it, cools down until now + 8000, takes the seed's domain hint if any, and draws a favour and a price from their lists |
| `Ecology.NextSeason` | src/lib/store.ts:865-868 | the next season is one step further round the four-season cycle |
| `Ecology.SeasonCycle` | src/lib/store.ts:865-871 | four steps return every season; only WINTER wraps to SPRING; no season follows itself |
| `Ecology.SeasonEnd` | src/lib/store.ts:877 | a season lasts between 45 s and 70 s |
| `Ecology.ScoreProperties` | src/lib/store.ts:930-941 | the score is never negative and does not drop when awakenings, harvests or seasons grow |
| `Ecology.ScoreValues` | src/lib/store.ts:934-940 | a fresh run at entropy 0 scores 180, and higher entropy never raises the score |
| `Dominance.FirstWithShare` | src/lib/storyEngine.ts:222 | the first domain in the list with a share of at least 40 %, or none when no domain has one |
| `Dominance.DominantDomainSpec` | src/lib/storyEngine.ts:213-224 | no dominant domain when all alignments are 0; otherwise the first domain in key order with a 40 % share, or none |
| `Dominance.ShareByCrossMultiplying` | src/lib/store.ts:210-215 | with a positive total, a 40 % share means 5 × value ≥ 2 × total |
| `Store.Last5` | src/lib/store.ts:951 | the scoreboard keeps the last five entries, in order |
| `Store.RemoveId` | src/lib/store.ts:844-845 | deleting a key removes exactly that key from the insertion order, keeps each key once, and changes nothing when the key is absent |
| `Store.RemoveIdSplit` | src/lib/store.ts:844-845 | deleting a key that occurs once between two runs of other keys leaves the two runs joined, each in its order |
| `Store.RemoveIdAt` | src/lib/store.ts:844-845 | in an insertion order with each id once, deleting the id at position i leaves exactly the ids before i followed by those after i |
| `Store.LiveBoons` | src/lib/store.ts:626 | exactly the boons that expire after now are kept |
| `Store.LivePrices` | src/lib/store.ts:627 | exactly the prices that expire after now are kept |
| `Store.DecayMultiplier` | src/lib/store.ts:615-616 | 1.6 exactly when an unexpired Stillness is active; 0.7 exactly when none is and an unexpired Tithed Breath is; 1 exactly when neither is |
| `Store.DecayDelta` | src/lib/store.ts:618 | idle decay always lowers entropy |
| `Store.EndingPriority` | src/lib/store.ts:890-907 | AscendantChorus exactly when its condition holds; GardenFamine exactly when that fails and the famine condition holds; entropy of 95 or more over two seasons always means famine |
| `Store.TickedAll` | src/lib/store.ts:752-804 | once every seed is ticked, the new map holds every seed ticked, and the seed table invariants still hold |
| `Store.SweptAll` | src/lib/store.ts:428-445 | once every legacy seed is visited, the map is the ticked legacy map |
| `Store.CountStep` | src/lib/store.ts:428-444 | one more visited seed adds one to the ripening or bleeding count exactly when it ripens or bleeds |
| `Store.LegacyTickSpec` | src/lib/store.ts:429-444 | a ripening seed becomes rot for 4 s, rot that is over is removed, others stay as they were; no seed both ripens and bleeds |
| `Store.OneAwakenedPerFiveSeeds` | src/lib/store.ts:170-180 | after n increments the awakened counter has grown by the number of multiples of 5 passed |
| `Store.GardenStore.constructor` | src/lib/store.ts:97-129 | the initial state: zero entropy, no seeds or gods, SPRING ending 45 s after creation, zero stats, no ending, empty scoreboard |
| `Store.GardenStore.CurrentScore` | src/lib/store.ts:930-941 | `calculateScore` is never negative |
| `Store.GardenStore.GetEntropy` | src/lib/store.ts:632-635 | the recomputed value is in [0, 100] and agrees with the stored shown value |
| `Store.GardenStore.EntropyTier` | src/lib/store.ts:637-645 | the tier of the shown entropy; its floor is at most that entropy |
| `Store.GardenStore.AnnounceEntropy` | src/lib/store.ts:589-595 | the tier change, if any, then the binder's threshold events for the new value |
| `Store.GardenStore.ModifyEntropy` | src/lib/store.ts:570-604 | the gauge takes one clamped, rounded step, the announcements go onto both buses in order, the interaction time is the clock, and the store invariant holds |
| `Store.GardenStore.SpawnPersistentSeed` | src/lib/store.ts:682-702 | a new PLANTED seed is filed under the returned id, a new id goes at the end of the insertion order, and `seed.spawn` is announced |
| `Store.GardenStore.FeedPersistent` | src/lib/store.ts:705-723 | an absent, STARVED or AWAKENED seed leaves seeds and stats unchanged; otherwise only that seed is fed and `harvested` grows by one |
| `Store.GardenStore.FeedSeed` | src/lib/store.ts:704-728 | as FeedPersistent, then −0.03 entropy and the viable-click and feed events, whatever became of the seed |
| `Store.GardenStore.StarveSeed` | src/lib/store.ts:784-797 | expire and starve are announced, entropy rises by 0.12, and a removal timer starts for the seed |
| `Store.GardenStore.TickOneSeed` | src/lib/store.ts:752-801 | the seed's next state, its own events, and only on starvation the entropy rise and removal timer |
| `Store.GardenStore.TickLoop` | src/lib/store.ts:752-802 | the loop in insertion order gives the ticked copy, and its events, entropy steps and removal timers in that order |
| `Store.GardenStore.TickPersistentSeeds` | src/lib/store.ts:730-806 | every seed is ticked against the season, entropy, bias and boons read before the loop; events, entropy and timers follow insertion order |
| `Store.GardenStore.AwakenSeed` | src/lib/store.ts:843-851 | the seed leaves the map and the insertion order, its god joins the gods, and `awakened` grows by one |
| `Store.GardenStore.AttemptAwakening` | src/lib/store.ts:808-860 | nothing changes without a MATURE seed or on a draw at or above the clamped chance; otherwise the picked MATURE seed becomes its god; −0.05 entropy and the two god events happen in every case |
| `Store.GardenStore.TickSeasons` | src/lib/store.ts:862-883 | nothing before `seasonUntil`; then the next season, a count bump on the wrap to SPRING, a new end 45 to 70 s away, and the season announced |
| `Store.GardenStore.EndRun` | src/lib/store.ts:943-956 | the run is over with this ending and the current score, the scoreboard keeps the last five entries, and the omen and ending events are announced |
| `Store.GardenStore.CheckEndings` | src/lib/store.ts:885-928 | the first ending due is declared, even on a run already over; otherwise only a StoneSleep timer starts, on a live run with no seeds and no gods |
| `Store.EmptyGardenStacksTimers` | src/lib/store.ts:911-925 | two checks on a live, empty garden with no ending due start two StoneSleep timers |
| `Store.GardenStore.StoneSleepTimerFires` | src/lib/store.ts:915-925 | after the timer the run ends in StoneSleep if there are still no seeds and no gods, with the score set and the omen and ending events on both buses; nothing happens otherwise |
| `Store.GardenStore.RemovalTimerFires` | src/lib/store.ts:791-797 | the oldest removal timer deletes its seed from the map and the insertion order |
| `Store.GardenStore.TriggerOmen` | src/lib/store.ts:648-679 | fires exactly when the 10 s cooldown is over; then a new cooldown, the omen event, one of the four omen lines logged, and −0.8 entropy; otherwise nothing changes |
| `Store.GardenStore.Decay` | src/lib/store.ts:610-629 | after more than 3 s idle, entropy takes the scaled decay step and its announcements go onto both buses; otherwise neither the gauge nor either bus changes; the expired boons and prices are always dropped |
| `Store.GardenStore.IncrementSeed` | src/lib/store.ts:170-182 | one more seed, and one more awakened exactly when the seed count reaches a multiple of 5 |
| `Store.GardenStore.DetermineDominantGod` | src/lib/store.ts:202-217 | the dominant god is the one the 40 % rule selects |
| `Store.GardenStore.UpdateDomainAlignment` | src/lib/store.ts:191-200 | only that domain moves, by delta but not below 0, and the dominant god is recomputed |
| `Store.GardenStore.ClickGod` | src/lib/store.ts:536-554 | ignored while absent or cooling down; otherwise a 12 s cooldown and the awaken-flag and god-spawn events |
| `Store.GardenStore.SweepOne` | src/lib/store.ts:429-444 | one legacy seed: ripening turns it to rot with one expire event, rot that is over is dropped, rot bleeds a little entropy |
| `Store.GardenStore.SweepSeeds` | src/lib/store.ts:428-445 | over every legacy seed, in any order: the ticked legacy map, one bleed per rotting seed, one expire event per ripening seed |
| `Store.GardenStore.TickSeeds` | src/lib/store.ts:423-453 | the legacy map is ticked, and entropy rises by the summed bleed only when some seed bleeds |
| `Store.GardenStore.ApplyBoon` | src/lib/store.ts:556-561 | the boon is appended with its expiry and announced |
| `Store.GardenStore.ApplyPrice` | src/lib/store.ts:563-568 | the price is appended with its expiry and announced |
| `Store.GardenStore.SetDomainBias` | src/lib/store.ts:606-608 | the bias becomes the argument |
| `Tags.Name` | src/lib/tags.ts:6 | every tag name is in lower case and contains no bracket, so it is matched letter by letter |
| `Tags.TokenAt` | src/lib/tags.ts:6 | a token matches at i only if `[`, the tag's name in any case, and `]` stand there |
| `Tags.ParseTags` | src/lib/tags.ts:8-28 | the tags are the collected matches without repeats, exactly the matched tags, and the text is the input with every token deleted, then trimmed |
| `Tags.DedupMembers` | src/lib/tags.ts:14-19 | the collected tags are exactly the matched ones |
| `Tags.DedupDistinct` | src/lib/tags.ts:16-18 | no tag is collected twice |
| `Tags.DedupFirstOrder` | src/lib/tags.ts:14-19 | the tags come in the order of their first occurrence |
| `Tags.HasTagSpec` | src/lib/tags.ts:30-33 | `hasTag` holds exactly when some match has the lower-cased argument as its name, which is then in the whitelist |
| `Tags.NameInjective` | src/lib/tags.ts:6 | different tags have different names |
| `Tags.TokenAtUnique` | src/lib/tags.ts:6 | at most one alternative matches at a position, so the alternation order cannot matter |
| `Tags.NoBracketText` | src/lib/tags.ts:22 | text without `[` has no tags and is only trimmed |
| `Tags.StripOneToken` | src/lib/tags.ts:22 | one token between stretches without `[` is reported and deleted, and the stretches are joined as they were |
| `Tags.UpperCaseTag` | src/lib/tags.ts:15 | `[LOUD]` yields the tag loud, cleans to the empty string, and `hasTag` finds it under "Loud" |
| `Tags.StripLeavesDoubleSpace` | src/lib/tags.ts:22 | a token between two spaces inside the text leaves both spaces in the cleaned text |
| `Tags.CollapseSpec` | src/lib/tags.test.ts:8 | collapsing white-space runs leaves no two white-space characters side by side |
| `Tags.StripTagsIntended` | src/lib/tags.test.ts:8 | the corrected cleaning never has two white-space characters in a row, nor white space at either end |
| `Tags.IntendedKeepsPlainText` | src/lib/tags.test.ts:26-31 | on single-spaced text without tokens, the corrected cleaning agrees with the code: it only trims |
| `Story.FindById` | src/lib/storyEngine.ts:142 | `find` returns the first line with the id, and nothing exactly when no line has it |
| `Story.NextLineUnloaded` | src/lib/storyEngine.ts:116-119 | before a story is loaded, the first fallback line, id 1, comes back |
| `Story.NextLineCorruption` | src/lib/storyEngine.ts:126-136 | when the corruption branch fires, the line has id −1, branch ASH and a text from the pool; otherwise it is a story line or the end sentinel |
| `Story.NextLineForeignOnlyByCorruption` | src/lib/storyEngine.ts:126-135 | a line from outside the story, other than the end sentinel, needs entropy above 70, a draw below 0.1 and a non-empty pool |
| `Story.NextLineNavigation` | src/lib/storyEngine.ts:139-163 | follow the current line's goto, stay on a choice point, or step to id lineIndex + 1; a missing target gives the end sentinel |
| `Story.FallbackIds` | src/lib/storyEngine.ts:4-32 | the fallback story has the ids 1 to 23 in order, with no goto and no choices |
| `Story.FindInCountingStory` | src/lib/storyEngine.ts:156 | in a story whose ids count up from a base, id n is found at position n − base |
| `Story.LinearWalk` | src/lib/storyEngine.ts:153-163 | in a story without gotos or choices whose ids count from 1, line index i gives the line at position i, and past the end the sentinel |
| `Story.FallbackWalk` | src/lib/storyEngine.ts:153-163 | over the fallback story the lines come in order, and after line 23 the end sentinel |
| `Corruption.Blot` | src/lib/storyEngine.ts:175-185 | tier 1 keeps the length and never moves the draw cursor backwards |
| `Corruption.Split` | src/lib/storyEngine.ts:189 | `split(' ')` returns at least one piece, and no piece contains a space |
| `Corruption.Swap` | src/lib/storyEngine.ts:188-196 | tier 2 never moves the draw cursor backwards |
| `Corruption.Mark` | src/lib/storyEngine.ts:199-208 | tier 3 never shortens the text and never moves the draw cursor backwards |
| `Corruption.BlotSpec` | src/lib/storyEngine.ts:175-185 | tier 1 keeps every space where it was, and every other character is kept or becomes one of the eight block characters |
| `Corruption.JoinSplit` | src/lib/storyEngine.ts:189-194 | joining the split pieces with spaces gives the text back |
| `Corruption.SplitCount` | src/lib/storyEngine.ts:189 | a text with n spaces splits into n + 1 words |
| `Corruption.SwapBag` | src/lib/storyEngine.ts:193 | exchanging two neighbouring words keeps the characters of the joined text |
| `Corruption.SwapSpec` | src/lib/storyEngine.ts:188-196 | tier 2 keeps the multiset of characters and the length, and does nothing below entropy 40 |
| `Corruption.MarkUnmarked` | src/lib/storyEngine.ts:199-208 | tier 3 only inserts zero-width marks: removing the marks gives what removing them from the input gives |
| `Corruption.MarkSpaces` | src/lib/storyEngine.ts:199-208 | tier 3 keeps the number of spaces |
| `Corruption.ApplyEntropySpec` | src/lib/storyEngine.ts:169-211 | unchanged below entropy 10; same length below 70; never shorter; the number of spaces is always kept |
| `Corruption.ApplyEntropyBlotsOnly` | src/lib/storyEngine.ts:175-196 | between 10 and 40, only tier 1 runs |
| `LoopAnalysis.TargetLength` | src/audio/loopAnalyzer.ts:207 | the output length is `floor(length / ratio)` |
| `LoopAnalysis.IndexInRange` | src/audio/loopAnalyzer.ts:212-213 | each output position reads a source position that exists |
| `LoopAnalysis.Downsample` | src/audio/loopAnalyzer.ts:204-225 | the new array holds, at each index, the resampled value |
| `LoopAnalysis.Interpolate` | src/audio/loopAnalyzer.ts:212-222 | one loop pass gives the interpolated sample, or the last sample at the end |
| `LoopAnalysis.Lerp` | src/audio/loopAnalyzer.ts:219 | an interpolated value lies between the two samples it interpolates |
| `LoopAnalysis.ResampledBetween` | src/audio/loopAnalyzer.ts:211-223 | each downsampled value lies between its two neighbouring source samples, or repeats the last one |
| `LoopAnalysis.DownsampleSameRate` | src/audio/loopAnalyzer.ts:204-225 | at the same rate, downsampling copies the signal |
| `LoopAnalysis.CrossCorrelate` | src/audio/loopAnalyzer.ts:231-248 | an array of min(len1, len2) entries; entry k is the mean of seg1[i]·seg2[i + k] over the positions where both exist |
| `LoopAnalysis.CorrelationBounded` | src/audio/loopAnalyzer.ts:239-244 | signals within [−1, 1] give correlations within [−1, 1] |
| `LoopAnalysis.SelfCorrelationNonneg` | src/audio/loopAnalyzer.ts:235-245 | a segment correlated with itself at offset 0 is never negative |
| `LoopAnalysis.LastOffset` | src/audio/loopAnalyzer.ts:239-244 | the last offset pairs only one sample of each segment |
| `LoopAnalysis.MaxOf` | src/audio/loopAnalyzer.ts:155 | the maximum is an element and bounds every element |
| `LoopAnalysis.FirstBelow` | src/audio/loopAnalyzer.ts:258-263 | the first index at or after the peak with a value below the threshold, or none |
| `LoopAnalysis.CorrelationWidth` | src/audio/loopAnalyzer.ts:253-266 | the width is at least 100; above 100 it is the distance to the first later entry below 80 % of the peak, and a first such entry more than 100 away always gives its distance |
| `LoopAnalysis.GetCorrelationWidth` | src/audio/loopAnalyzer.ts:253-266 | the scan with its break gives that width |
| `LoopAnalysis.LoopStartAt` | src/audio/loopAnalyzer.ts:171-172 | the loop start scaled back to the source rate is never negative |
| `LoopAnalysis.CrossfadeFor` | src/audio/loopAnalyzer.ts:177 | the cross-fade lies in [200, 600] ms |
| `LoopAnalysis.DetectLoopPoints` | src/audio/loopAnalyzer.ts:129-187 | the method's result is the detection outcome described by the lemmas below |
| `LoopAnalysis.PickLoop` | src/audio/loopAnalyzer.ts:155-186 | its result agrees with the peak, threshold and scaling rules, including the empty correlation, whose maximum is below the threshold |
| `LoopAnalysis.DetectedShape` | src/audio/loopAnalyzer.ts:129-199 | the loop always ends 1000 samples before the end; the duration is length / rate; loopable exactly when not percussive; loopable means a 200–600 ms cross-fade; percussive means {0, 0 ms, confidence 1} |
| `LoopAnalysis.DetectedWeakCorrelation` | src/audio/loopAnalyzer.ts:158-168 | with no correlation of at least 0.8: {0, length − 1000, 500, true, 0.5, duration} |
| `LoopAnalysis.StrongCorrelation` | src/audio/loopAnalyzer.ts:155-186 | with a correlation of at least 0.8 the offset used is the first maximum; the confidence is that maximum, at least 0.8; the loop start is it scaled back |
| `LoopAnalysis.DetectedStrongCorrelation` | src/audio/loopAnalyzer.ts:145-186 | the same for the correlation of a non-percussive buffer's end and start segments |
| `LoopAnalysis.ExtName` | src/audio/loopAnalyzer.ts:108 | an extension is empty, or a dot followed by neither a dot nor a slash |
| `LoopAnalysis.OggStub` | src/audio/loopAnalyzer.ts:90-94 | one second of 44.1 kHz audio |
| `LoopAnalysis.AnalyzeLoop` | src/audio/loopAnalyzer.ts:106-124 | dispatch on the lower-cased extension: .wav decodes, .ogg uses the stub, anything else or a failed decode gives the fallback |
| `LoopAnalysis.AnalysisFallback` | src/audio/loopAnalyzer.ts:271-280 | an unsupported extension or failed decode yields exactly {0, 43100, 400, true, 0.3, 1.0} |
| `LoopAnalysis.OggNeverLoops` | src/audio/loopAnalyzer.ts:90-94 | every .ogg file yields {0, 43100, 0, false, 1.0, 1.0} |
| `Settings.UserSettings.Defaults` | src/settings/userSettings.ts:8-13 | volume 0.7, not muted, reduced motion as the display prefers, and an empty cue table of its own |
| `Settings.UserSettingsManager.constructor` | src/settings/userSettings.ts:18-33 | nothing stored: the live settings are the defaults object itself; stored: a new object with the stored fields over the defaults, sharing the defaults' cue table unless one is stored |
| `Settings.UserSettingsManager.MasterVolume` | src/settings/userSettings.ts:43-45 | 0 while muted, and the stored volume otherwise |
| `Settings.UserSettingsManager.CueVolume` | src/settings/userSettings.ts:70-72 | 1.0 for a cue never set, and the stored volume otherwise |
| `Settings.UserSettingsManager.SetMasterVolume` | src/settings/userSettings.ts:47-50 | the volume becomes the argument clamped to [0, 1]; the effective volume stays in [0, 1]; nothing else changes; the settings are saved |
| `Settings.UserSettingsManager.SetMuted` | src/settings/userSettings.ts:56-59 | only the muted flag changes; muted means volume 0; the settings are saved |
| `Settings.UserSettingsManager.SetReduceMotion` | src/settings/userSettings.ts:65-68 | only the reduced-motion flag changes; the settings are saved |
| `Settings.UserSettingsManager.SetCueVolume` | src/settings/userSettings.ts:74-77 | the clamped volume is written into the shared cue table for that cue only; the settings are saved |
| `Settings.UserSettingsManager.Reset` | src/settings/userSettings.ts:79-82 | a new settings object with the defaults' current top-level fields and the defaults' own cue table, then saved |
| `Settings.UserSettingsManager.GetAllSettings` | src/settings/userSettings.ts:84-86 | a new object with the same top-level fields and the same cue table |
| `Settings.ResetAfterAdoptingDefaults` | src/settings/userSettings.ts:32 | when the live settings are the defaults object, a volume set before `reset` survives it |
| `Settings.ResetAfterLoading` | src/settings/userSettings.ts:79-82 | when the live settings are a separate object, `reset` restores the defaults' volume |
| `Settings.ResetKeepsSharedCues` | src/settings/userSettings.ts:79-82 | a cue volume set while the cue table is shared with the defaults survives `reset` |
| `Settings.CopyIsShallow` | src/settings/userSettings.ts:84-86 | replacing a field of the copy leaves the live settings alone, while writing into its cue table changes the live cue volumes |

## Left out

- Persistence is not modelled: `save`, `load`, `exportSave`, `importSave`, `resetRun`, `hardReset`, the debounced save and the zustand `persist` configuration. `saveSettings` is reduced to recording the saved value, and its storage exceptions are left out. These are I/O and JSON handling.
- `loadSettings` takes the parsed stored value as a parameter. Reading local storage, malformed JSON and fields of the wrong type are not modelled. An absent flag and a flag stored as `false` are distinguished only through `Option`.
- The store commands outside the simulation core are not modelled: `advanceStory`, `applyChoice`, `tickEntropy`, `addToHistory`, `incrementAwakened`, `spawnSeed`, `spawnSeeds`, `clickSeed`, `spawnGod`, `despawnFocus`, `updateMoodFromText`, `setSurfaceSize`, `setLastClick`, `restartConfirm`. They feed the views and the legacy surface rather than the entropy and ecology engine.
- Timers are modelled as pending records with methods that fire them in order: the 4 s removal of a starved seed and the 30 s StoneSleep re-check. Their real-time scheduling and interleaving are not modelled.
- Console output is not modelled, including every `console.log` and `console.warn`.
- Loading the story and the corruption JSON is not modelled: `loadStory`, `loadCorruption` and `clearCache`. The loaded story and pool are an `Engine` value.
- WAV decoding is not modelled. It reads files and parses fixed byte offsets. It is a parameter: the decoded buffer, or None for a failed decode. A decoded sample rate of 0 counts as a failed decode, because the JavaScript durations would be Infinity or NaN.
- `MIN_LOOP_LENGTH` and `MAX_LOOP_LENGTH` are declared and never used, so they are not modelled.
- Floating point is not modelled. Samples, entropy and times are exact reals, and Float32 storage of downsampled samples and IEEE rounding of `toFixed` are not modelled. `toFixed(2)` is modelled as round-half-up on the exact value.
- Strings are sequences of Dafny characters, which are Unicode scalar values, while JavaScript strings are sequences of UTF-16 code units. The model agrees with the source on text inside the Basic Multilingual Plane only. On a character outside it, `split('')` in `applyEntropy` sees two code units, draws twice and can blot half of the pair; the model draws once per character. `toLowerCase` is modelled on ASCII letters only.
- `Settings.UserSettingsManager.CueVolume`: cue ids are taken not to collide with keys inherited from `Object.prototype`. For an id such as "constructor", `cueVolumes[cueId] ?? 1.0` returns the inherited member, not 1.0; the model's table is a plain map.
- `path.extname` and `path.basename` are modelled for '/'-separated paths only.
- `Math.random()` ids, `Date.now()` and the rAF frame rate are parameters.
- `LoopAnalysis.Downsample`: its contract ties the array to `Downsampled`. The property that each value lies between its neighbouring samples is stated per element on `Resampled`, by `ResampledBetween`, rather than on the whole array.
- `Corruption.Blot`, `Corruption.Swap` and `Corruption.Mark`: their own contracts state only length and cursor facts. What they do to the characters is stated by the lemmas next to them.
- Some tests do not match the code and are not asserted:
  - storyEngine.test.ts passes numbers to `nextLine`.
  - The drone test in loopAnalyzer.test.ts expects an `.ogg` file to loop.
  - The spacing expectations in tags.test.ts: see Findings.
- The percussive pattern `hit` also matches inside words such as "white". The model keeps the substring test as written.

## Findings

| source | as written | input that shows it | evidently intended | confidence | as-written member | corrected member |
|---|---|---|---|---|---|---|
| src/lib/tags.ts:22 | a deleted tag token leaves the spaces on both sides of it, and only the two ends are trimmed | `The cursor twitches [loud] when you stop watching.` cleans to a text with two spaces after "twitches" | the token and its surrounding white space close up to one space, as tags.test.ts:8, 15, 22 and 40 expect | not executed | `Tags.StripLeavesDoubleSpace` | `Tags.StripTagsIntended` |
