# Slicing game with a wagered two-player mode — verified model

This project models, in Dafny, the logic under a browser slicing game. Items (good tokens and bombs) fall through a canvas, and the player slices them with a pointer gesture. The game has three modes (classic, arcade, zen), a combo multiplier, hearts and lives, and a lifetime tier ladder with NFT milestones. A two-player mode lets players stake PC on a chain contract, and that mode has the following parts:
- a lobby, with a backend cache and a database mirror;
- score submission with pre-flight checks;
- a results screen that polls for the outcome and repairs a stuck game;
- a backend indexer that copies chain events into per-player aggregates.

There is one module per source file, plus `Common` for helpers:
- sequence filtering;
- ASCII lower-casing;
- decimal strings;
- `Option`.

Every random draw, every `Date.now()`, the canvas size and every remote answer is a parameter. Remote answers include a contract receipt, a database row and a query result. Timers are modelled as explicit calls.

The state holders are modelled as classes, and each method's `ensures` ties the new state to a specification function:
- the blade trail;
- the item list with its penalty set;
- the slash detector over an array of items;
- the spawner;
- the auto-pause effect;
- the results view;
- the host's join watcher;
- the backend's games cache;
- the indexer.

The record-to-record transitions and lookups are functions, with lemmas for the properties the game relies on.

Where the code does something its authors evidently did not intend, the model keeps the code as written next to a corrected version, proves both, and lists the difference under "## Findings". The classes use the corrected versions.

## Model

| member | source | states |
|---|---|---|
| BladeTrail.Alpha | src/hooks/useBladeTrail.js:21-30 | a point's alpha is never negative, is positive exactly while the point is younger than the maximum age, and is 1 at the point's own timestamp |
| BladeTrail.FadeKeepsYoung | src/hooks/useBladeTrail.js:21-33 | fading keeps exactly the points younger than the maximum age, each as often as before, and adds none |
| BladeTrail.FadeIdempotent | src/hooks/useBladeTrail.js:21-33 | fading twice at the same moment is fading once |
| BladeTrail.FadeAppend | src/hooks/useBladeTrail.js:25-30 | fading distributes over concatenation, so it keeps the relative order of the points |
| BladeTrail.PushBounded | src/hooks/useBladeTrail.js:8-19 | the new point is last; a trail within the 20-point cap stays within it; below the cap the point is appended, at the cap the oldest point is dropped; the older points keep their order |
| BladeTrail.Trail.constructor | src/hooks/useBladeTrail.js:3-6 | the trail starts empty and not slashing |
| BladeTrail.Trail.AddTrailPoint | src/hooks/useBladeTrail.js:8-19 | the trail becomes the bounded push of the new point, which has alpha 1; the slashing flag is unchanged |
| BladeTrail.Trail.UpdateTrail | src/hooks/useBladeTrail.js:21-33 | the trail becomes its fade at `now` (200 ms) |
| BladeTrail.Trail.ClearTrail | src/hooks/useBladeTrail.js:35-38 | the trail is emptied and the flag kept |
| BladeTrail.Trail.StartSlashing | src/hooks/useBladeTrail.js:40-43 | slashing starts with an empty trail |
| BladeTrail.Trail.StopSlashing | src/hooks/useBladeTrail.js:45-48 | slashing stops and the trail is left to fade |
| GameState.InitialLives | src/hooks/useGameState.js:35-44 | 999 lives exactly in zen mode, 3 otherwise |
| GameState.InitialTime | src/hooks/useGameState.js:35-44 | classic has no timer; arcade and zen have a positive one (60 and 90) |
| GameState.Initial | src/hooks/useGameState.js:6-29 | the first record is on the start screen, not running, without a mode, and satisfies the state invariant |
| GameState.ClearLastCount | src/hooks/useGameState.js:160-166 | clearing the last active heart lowers the number of active hearts by one, or keeps it at zero |
| GameState.CountPositiveZero | src/hooks/useGameState.js:160-166 | no heart is active exactly when every heart has health 0 or less |
| GameState.LastPositive | src/hooks/useGameState.js:161-165 | the backward scan finds the last heart with positive health, or reports that there is none |
| GameState.StartGame | src/hooks/useGameState.js:31-65 | the game screen opens running and unpaused, with the mode's lives and timer, full hearts, and zero score, combo, max combo and last slash time; bests and lifetime totals are kept; the invariant is preserved |
| GameState.EndGame | src/hooks/useGameState.js:67-116 | the overall best and the mode's best become the maximum of score and old best, other modes' bests are kept, the total score grows by the score, games played by one; results screen, not running, not paused; every other field is kept |
| GameState.EndGameBestCoversScore | src/hooks/useGameState.js:92-97 | after the game ends, the best is at least the score and at least the old best |
| GameState.Multiplier | src/hooks/useGameState.js:132 | the multiplier is between 1 and 5, is 1 below a combo of 3, and is 5 from 12 on |
| GameState.MultiplierMonotone | src/hooks/useGameState.js:132 | a larger combo never gives a smaller multiplier |
| GameState.NextCombo | src/hooks/useGameState.js:128-131 | the combo grows by one within the 2000 ms window and restarts at 1 otherwise |
| GameState.UpdateScore | src/hooks/useGameState.js:125-150 | the score grows by points × multiplier of the new combo; both slash counters grow by one; max combo becomes the maximum of old max combo and the new combo; the popup fires exactly when there is a callback, the points are positive and the multiplier exceeds 1, and carries the bonus; the last slash time becomes now; every other field is kept |
| GameState.ComboWindowBoundary | src/hooks/useGameState.js:128-131 | a gap of exactly 2000 ms restarts the combo, while 1999 ms continues it |
| GameState.LoseOne | src/hooks/useGameState.js:152-186 | with no lives left nothing changes; otherwise lives drop by one, the last active heart is cleared, combo resets, a bomb adds to bombs hit and total slashes, and the end is scheduled exactly when no life is left; every other field is kept |
| GameState.LoseLife | src/hooks/useGameState.js:152-186 | losing a life to a bomb is the bomb case of losing one life |
| GameState.LoseLifeLosesHeart | src/hooks/useGameState.js:155-175 | outside zen mode a lost life takes exactly one active heart, so active hearts keep matching lives |
| GameState.TogglePause | src/hooks/useGameState.js:241-246 | only the pause flag flips |
| GameState.DecrementTimer | src/hooks/useGameState.js:265-289 | a missing or exhausted timer is left alone; otherwise it drops by one, clamped at zero, and the end is scheduled exactly when it reaches zero |
| GameState.CountdownEndsOnce | src/hooks/useGameState.js:265-289 | any number of ticks at or beyond the starting time leaves the timer at zero and schedules the end exactly once, or never when it started at zero |
| GameState.ClearLastActiveHeart | src/hooks/useGameState.js:158-166 | the in-place backward loop leaves the array equal to the specification of clearing the last active heart |
| GameState.LastPositiveIs | src/hooks/useGameState.js:161-165 | the scan finds the given heart when it is the last active one |
| GameState.GameStateHook.constructor | src/hooks/useGameState.js:4-29 | the hook starts with the initial record and no penalty time |
| GameState.GameStateHook.Start | src/hooks/useGameState.js:31-65 | starting resets the penalty debounce and applies the start transition |
| GameState.GameStateHook.LoseOneInPlace | src/hooks/useGameState.js:152-186 | the record becomes the specified loss of one life |
| GameState.GameStateHook.LoseLifeToBomb | src/hooks/useGameState.js:152-186 | the record becomes the bomb loss |
| GameState.GameStateHook.LoseLiveFromMissedToken | src/hooks/useGameState.js:190-239 | a call less than 1000 ms after the last accepted one changes nothing; an accepted call records its time and loses one life without counting a bomb |
| GameState.DebouncedPair | src/hooks/useGameState.js:194-200 | two missed-token penalties less than 1000 ms apart cost at most one life |
| GameLoop.TokenPoints | src/hooks/useGameLoop.js:5-10 | every token colour is worth between 10 and 25 points |
| GameLoop.GetRandomItemType | src/hooks/useGameLoop.js:19-36 | zen mode always draws a token; otherwise the draw is a bomb exactly for 0.9 < r ≤ 1 |
| GameLoop.GateToken | src/hooks/useGameLoop.js:131-150 | before 15 s every good item is yellow; between 15 s and 45 s blue and red are replaced by yellow or green and yellow and green are kept; from 45 s on, and for games without a start time, the drawn colour stands |
| GameLoop.NewItem | src/hooks/useGameLoop.js:160-258 | a new item enters from the top, unsliced and unpenalized with an empty trail, inside the 80-pixel margins; a token's points are its gated colour's; a bomb is worth nothing, with radius 28 and hit box 35 against 38 and 45 for tokens |
| GameLoop.ItemTrail | src/hooks/useGameLoop.js:318-335 | while visible an item's trail holds at most 8 points, all younger than 1000 ms; while hidden it is left alone |
| GameLoop.AdvanceItem | src/hooks/useGameLoop.js:276-379 | gravity is added to the vertical speed before moving; the item is marked exactly when it crosses the exit line as a good, unsliced, unpenalized item whose id is not yet recorded; marking sets the penalty flag; nothing else changes |
| GameLoop.AdvanceAllMarks | src/hooks/useGameLoop.js:342-363 | over a whole tick the marked ids are distinct, new to the penalty set, each of a good unsliced unpenalized item, and are exactly what the set gains |
| GameLoop.PrunedIdsCover | src/hooks/useGameLoop.js:381-393 | every item the filter drops has its id among the pruned ids |
| GameLoop.TickForgetsPruned | src/hooks/useGameLoop.js:381-393 | an item that leaves the field is dropped from the list and its id from the penalty set in the same tick |
| GameLoop.Tick | src/hooks/useGameLoop.js:263-397 | after a tick every item lies in the field, the list has not grown, and no more callbacks fire than items were marked |
| GameLoop.TickFixed | src/hooks/useGameLoop.js:342-363 | the corrected tick leaves the same items and penalty set as the tick as written |
| GameLoop.TickFixedChargesEachMissOnce | src/hooks/useGameLoop.js:342-363 | with the fix, each newly missed good item causes exactly one callback, and no other item does |
| GameLoop.PenaltyAtMostOnce | src/hooks/useGameLoop.js:345-356 | an item once marked is never marked again |
| GameLoop.BombsNeverMarked | src/hooks/useGameLoop.js:346-349 | a bomb never triggers the missed callback |
| GameLoop.MissedPenaltyLostWhenPruned | src/hooks/useGameLoop.js:352-363 | a token that falls past the exit line and out of the field in one tick is marked but fires no callback, while the corrected tick fires one |
| GameLoop.CleanupExcess | src/hooks/useGameLoop.js:647-655 | with more than 12 items the newest 12 are kept, in order, with empty trails; otherwise the list is unchanged |
| GameLoop.CleanupWithinCap | src/hooks/useGameLoop.js:647-655 | cleanup leaves at most 12 items and is idempotent |
| GameLoop.MapItems | src/hooks/useGameLoop.js:270-380 | the mapping loop computes the specified advance of every item |
| GameLoop.PruneStep | src/hooks/useGameLoop.js:381-393 | filtering one more item appends it exactly when it is kept |
| GameLoop.PrunedIdsStep | src/hooks/useGameLoop.js:381-393 | one more item adds its id to the pruned ids exactly when it is dropped |
| GameLoop.PruneItems | src/hooks/useGameLoop.js:381-393 | the filter loop keeps exactly the in-field items and removes the dropped items' ids from the set |
| GameLoop.RunMissedCallbacks | src/hooks/useGameLoop.js:358-362 | as written, a deferred callback fires only for an id still in the set when it runs |
| GameLoop.ItemLoop.constructor | src/hooks/useGameLoop.js:44-50 | no items and no penalty tracking |
| GameLoop.ItemLoop.SpawnItem | src/hooks/useGameLoop.js:112-261 | exactly one new item is appended when the game is running and unpaused, has a canvas, is visible and the item count the callback saw is below 12; otherwise nothing changes; the 12-item cap is kept only when that count is the live one; bounded trails are preserved |
| GameLoop.ItemLoop.TrimOnVisible | src/hooks/useGameLoop.js:98-103 | on a visible tab a list over 12 items keeps its newest 12 in order, so the list is within the cap afterwards; the penalty set is untouched |
| GameLoop.ItemLoop.ClearTrailsWhenHidden | src/hooks/useGameLoop.js:105-110 | on a hidden tab every item keeps all its fields but its trail, which becomes empty; on a visible tab nothing changes |
| GameLoop.ItemLoop.UpdateGame | src/hooks/useGameLoop.js:263-397 | a stopped, paused or canvas-less game is left alone; otherwise the items, the penalty set and the callbacks are those of the corrected tick |
| GameLoop.ItemLoop.CleanupExcessItems | src/hooks/useGameLoop.js:647-655 | the items become the cleanup of the old list |
| GameLoop.ItemLoop.ClearAllItems | src/hooks/useGameLoop.js:639-645 | no items and an empty penalty set |
| GameScreen.BandAt | src/components/GameScreen.js:128-159 | the band has wave sizes within 1..5, an interval within 1500..3000 and a stagger of at most 200; it is the tutorial band exactly before 15 s and the expert band exactly from 90 s on |
| GameScreen.BandsHarden | src/components/GameScreen.js:128-159 | as time passes the interval never grows, both wave bounds never shrink, and the stagger never grows from 15 s on |
| GameScreen.WaveSize | src/components/GameScreen.js:128-159 | a wave's size lies within its band |
| GameScreen.ThirdOf | src/components/GameScreen.js:151-156 | `floor(r·3)` is 0, 1 or 2 |
| GameScreen.EveryWaveSizeOccurs | src/components/GameScreen.js:128-159 | every size in the band is drawn for some random value |
| GameScreen.WaveDelays | src/components/GameScreen.js:163-165 | a wave schedules exactly waveSize spawns, the i-th after i × stagger |
| GameScreen.SpawnerStep | src/components/GameScreen.js:119-169 | without a start time nothing happens; otherwise a wave fires exactly when the band's interval has passed since the last one, and it records `now` and has a size within the band |
| GameScreen.WavesSpaced | src/components/GameScreen.js:161-168 | two successive waves are at least the current band's interval apart, and at least 1500 ms |
| GameScreen.Spawner.constructor | src/components/GameScreen.js:118 | the last spawn starts at the effect's start time |
| GameScreen.WaveHeldOffByRestart | src/components/GameScreen.js:118-166 | a check less than 1.5 s after the spawner (re)started fires no wave and keeps the start as the last spawn |
| GameScreen.Spawner.Restart | src/components/GameScreen.js:108-118 | a re-run of the effect sets the last spawn to the time of the re-run |
| GameScreen.Spawner.Check | src/components/GameScreen.js:108-169 | nothing fires while not running, paused or hidden; otherwise the check is the spawner step |
| GameScreen.AutoPause.constructor | src/components/GameScreen.js:177-186 | the remembered visibility starts as the current one |
| GameScreen.AutoPause.OnVisibility | src/components/GameScreen.js:177-186 | the toggle is the auto-pause decision, and the visibility is remembered |
| GameScreen.AutoPauses | src/components/GameScreen.js:179-183 | the game is paused exactly on a visible-to-hidden change while it is running and unpaused, and toggling then pauses it |
| GameScreen.CleanupSettles | src/components/GameScreen.js:189-193 | a cleanup triggered above 15 items leaves 12, which no longer trigger it |
| SlashDetection.MousePos | src/hooks/useSlashDetection.js:22-33 | without a canvas the position is the origin; the rectangle's edges map to the canvas' edges |
| SlashDetection.Scale | src/hooks/useSlashDetection.js:26-31 | one axis of the mapping sends the rectangle's near edge to 0 and its far edge to the canvas' pixel size |
| SlashDetection.ScaleMonotone | src/hooks/useSlashDetection.js:26-31 | with a ratio that is not negative, a larger client coordinate never maps to a smaller pixel coordinate |
| SlashDetection.MousePosMonotone | src/hooks/useSlashDetection.js:29-32 | the mapping preserves the order of coordinates |
| SlashDetection.HitsIffCloserThanRadius | src/hooks/useSlashDetection.js:179-186 | the squared-distance test is the strict `distance < hit radius` test |
| SlashDetection.EffectOf | src/hooks/useSlashDetection.js:195-257 | a good item scores its points and a bomb costs a life, never both |
| SlashDetection.CheckAll | src/hooks/useSlashDetection.js:176-259 | one pass keeps the number of items |
| SlashDetection.HitIdsAppend | src/hooks/useSlashDetection.js:176-188 | hits of two passes give the union of their ids |
| SlashDetection.CheckAllFacts | src/hooks/useSlashDetection.js:176-188 | in one pass the hit ids are distinct and new to the set, each hit comes from an unsliced item with its own effect, only hit items get marked slashed, and the set gains exactly the hit ids |
| SlashDetection.CheckPoints | src/hooks/useSlashDetection.js:289-301 | testing several points keeps the number of items |
| SlashDetection.CheckPointsHitOnce | src/hooks/useSlashDetection.js:187-188 | across all the points of a gesture each item is hit at most once, none that was already recorded, and the set gains exactly the hit ids |
| SlashDetection.CheckAllStep | src/hooks/useSlashDetection.js:176-188 | one item's test, then the rest, is the pass over the list |
| SlashDetection.CheckPointsAppend | src/hooks/useSlashDetection.js:289-301 | testing two runs of points is testing one after the other |
| SlashDetection.CheckPointsOne | src/hooks/useSlashDetection.js:301 | testing a single point is one pass |
| SlashDetection.Steps | src/hooks/useSlashDetection.js:288 | at least 5 steps, and `floor(speed/2)` from a speed of 10 on |
| SlashDetection.Samples | src/hooks/useSlashDetection.js:289-295 | steps + 1 points at `t = i/steps`, both end points included |
| SlashDetection.SlashPoints | src/hooks/useSlashDetection.js:286-301 | above speed 1 the gesture tests the steps + 1 samples and then the current point again; otherwise only the current point; the current point is always last |
| SlashDetection.SlashDetector.constructor | src/hooks/useSlashDetection.js:17-20 | origin, zero velocity, empty hit set, no clearing timer pending |
| SlashDetection.SlashDetector.CheckSlashCollisions | src/hooks/useSlashDetection.js:173-260 | nothing happens unless slashing at speed 2 or more; otherwise the in-place loop over the item array leaves the items, the hit set and the hits of one pass |
| SlashDetection.SlashDetector.StartSlash | src/hooks/useSlashDetection.js:262-272 | outside a running, unpaused game nothing changes; otherwise the position is recorded, the velocity zeroed, the hit set cleared and one trail point pushed |
| SlashDetection.SlashDetector.UpdateSlash | src/hooks/useSlashDetection.js:274-303 | outside a running, unpaused game or a gesture nothing changes; otherwise the velocity is current − last, the position is recorded, a trail point is pushed, and at speed 2 or more the items and hits are those of testing the gesture's points |
| SlashDetection.SlashDetector.CheckSegment | src/hooks/useSlashDetection.js:287-296 | the interpolation loop tests the samples in order |
| SlashDetection.SlashDetector.EndSlash | src/hooks/useSlashDetection.js:305-312 | during a gesture one more clearing timer is pending, otherwise none is added; the hit set, position and velocity are untouched until it fires |
| SlashDetection.SlashDetector.ClearSlashedItems | src/hooks/useSlashDetection.js:308-311 | a pending timer fires: the hit set is emptied and one fewer timer is pending; position and velocity are kept |
| TierSystem.TiersWellFormed | src/utils/tierSystem.js:3-143 | the tier table starts at 0, and each tier ends one below the next tier's minimum |
| TierSystem.MinScoresIncrease | src/utils/tierSystem.js:3-143 | minimum scores strictly increase along the table |
| TierSystem.ScanDown | src/utils/tierSystem.js:146-153 | the backward scan stops at the first qualifying tier from the top, or at the first tier |
| TierSystem.TierIndex | src/utils/tierSystem.js:146-153 | the chosen tier is the highest whose minimum the score reaches |
| TierSystem.GetTierByScore | src/utils/tierSystem.js:146-153 | the result is a tier of the table |
| TierSystem.TierHoldsScore | src/utils/tierSystem.js:146-153 | a non-negative score lies within its tier's range |
| TierSystem.TierMonotone | src/utils/tierSystem.js:146-153 | a larger score never gives a lower tier |
| TierSystem.ProgressToNextTier | src/utils/tierSystem.js:156-184 | at the top tier, progress is 100 and nothing is needed; otherwise the next tier is the following one, the score needed reaches its minimum exactly, and progress lies in [0, 100) |
| TierSystem.FractionBelowOne | src/utils/tierSystem.js:172-178 | the progress percentage stays below 100 and is not negative |
| TierSystem.CanMintNFTAtTier | src/utils/tierSystem.js:187-212 | no NFT at the tier means not available; too few games means the exact number of games still needed; otherwise the tier's reward can be minted |
| TierSystem.MintTiersCover | src/utils/tierSystem.js:215-217 | the milestone scan keeps exactly the minting tiers |
| TierSystem.MilestonesAreMintTiers | src/utils/tierSystem.js:215-217 | the milestones are exactly the tiers with an NFT |
| TierSystem.MilestoneIds | src/utils/tierSystem.js:215-217 | there are four milestones, the third, fifth, seventh and ninth tiers in table order |
| TierSystem.MintStep | src/utils/tierSystem.js:215-217 | the scan takes a tier exactly when it has an NFT, keeping table order |
| TierSystem.UnlockedNFTs | src/utils/tierSystem.js:225-229 | unlocked NFTs are exactly the milestones whose score and games requirements are both met |
| TierSystem.UnlockedGrows | src/utils/tierSystem.js:225-229 | a higher score and more games never lock an NFT again |
| TierSystem.MintableIsUnlocked | src/utils/tierSystem.js:187-229 | a tier that can mint is among the unlocked NFTs |
| TierSystem.EarnedIsPrefix | src/utils/tierSystem.js:245-267 | the achievements earned on an increasing ladder are exactly its first rungs whose thresholds are reached |
| TierSystem.EarnedGrows | src/utils/tierSystem.js:245-267 | a larger value earns a longer list that extends the shorter one |
| TierSystem.Achievements | src/utils/tierSystem.js:245-267 | there are at most 12 achievements |
| TierSystem.AchievementsGrow | src/utils/tierSystem.js:245-267 | larger totals, game counts and bests never lose an achievement |
| TierSystem.PlayerStats | src/utils/tierSystem.js:220-242 | the average is the floor of total over games, or 0 without games; unlocked NFTs are the met milestones; four NFTs exist; the three inputs are copied, and the progress, mint check and achievements are those of the tier functions for the same totals, so progress and mint check agree on the tier |
| TierSystem.AverageScore | src/utils/tierSystem.js:225 | the floored average times the number of games is at most the total and within one game of it; 0 before any game |
| TierSystem.SessionMultiplier | src/utils/tierSystem.js:270-275 | the multiplier lies in [1, 2], is 1 exactly below 3 games and 2 exactly from 10 |
| TierSystem.SessionMultiplierMonotone | src/utils/tierSystem.js:270-275 | more consecutive games never lower the multiplier |
| MultiplayerService.BetTierWei | src/services/multiplayerService.js:13-62 | the tiers have ids 1 to 4, and each wei string is a decimal of the amount × 10^18 |
| MultiplayerService.FindBetTier | src/services/multiplayerService.js:77 | a tier is found exactly for ids 1 to 4, and it has that id |
| MultiplayerService.FindBetTierFrom | src/services/multiplayerService.js:77 | the search from position i finds the tier of the id exactly when it lies at or after i |
| MultiplayerService.ErrorOr | src/services/multiplayerService.js:85-87 | an error message is never empty and prefers the service's own |
| MultiplayerService.CreateGuard | src/services/multiplayerService.js:68-81 | creation is allowed exactly with an initialised service, a wallet and a known tier |
| MultiplayerService.CreateGame | src/services/multiplayerService.js:65-118 | a game is created exactly when the guard passes and the chain call succeeds, with the requested tier and the chain's id and hash; everything else is a failure |
| MultiplayerService.CreateRejectsBeforeChain | src/services/multiplayerService.js:68-81 | a rejected request fails with the guard's message, whatever the chain would have answered |
| MultiplayerService.JoinGuard | src/services/multiplayerService.js:123-130 | joining is allowed exactly with an initialised service and a wallet |
| MultiplayerService.JoinGame | src/services/multiplayerService.js:120-162 | a join succeeds exactly when the guard passes and the chain call succeeds; a rejected join fails with the guard's message |
| MultiplayerService.SubmitGuard | src/services/multiplayerService.js:167-175 | submission is allowed exactly with an initialised service and a wallet |
| MultiplayerService.SubmitScore | src/services/multiplayerService.js:164-213 | success is reported exactly when the guard passes and the chain submission succeeded, and only then is the backend told of the finish |
| MultiplayerService.ToListed | src/services/multiplayerService.js:220-228 | a missing or empty second player is listed as "0x0" and any other second player as it is; a missing state is listed as 0 and a present one as it is; the other columns are copied |
| MultiplayerService.AvailableGames | src/services/multiplayerService.js:215-233 | the listing maps every row in order; a failed query lists nothing |
| MultiplayerService.FormatAddress | src/services/multiplayerService.js:348-351 | an empty address stays empty; otherwise the first six characters (or the whole of a shorter address), then "...", then the last four (or the whole of a shorter address), 13 characters for a full address |
| MultiplayerService.NormalizeAddress | src/services/multiplayerService.js:353-356 | an empty address stays empty; otherwise the result is lower case and starts with "0x", added only when missing |
| MultiplayerService.NormalizeIdempotent | src/services/multiplayerService.js:353-356 | normalising twice is normalising once |
| MultiplayerService.CompareIsEquivalence | src/services/multiplayerService.js:358-360 | address comparison is reflexive, symmetric and transitive, and an address matches the empty one only when it is empty |
| MultiplayerService.CompareIgnoresCaseAndPrefix | src/services/multiplayerService.js:358-360 | comparison ignores letter case and a missing "0x" prefix |
| PushChainService.ResolveWallet | src/services/pushChainService.js:382-392 | the override wins; no address is found exactly when all three sources are empty |
| PushChainService.PreFlightOf | src/services/pushChainService.js:396-461 | an unreadable game proceeds; a player who has already finished is told so, and that takes precedence over a finished game; any other case proceeds |
| PushChainService.TxErrorMessage | src/services/pushChainService.js:505-509 | a revert or call exception becomes the friendly message; other errors keep theirs |
| PushChainService.SubmitMultiplayerScore | src/services/pushChainService.js:373-517 | a transaction is sent exactly when the service is initialised, a wallet is known and the pre-flight check proceeds; the two already-done answers match the pre-flight check exactly; success requires a mined receipt with non-zero status and carries its hash |
| PushChainService.ResubmissionIsIdempotent | src/services/pushChainService.js:426-442 | a finished player's resubmission succeeds as "already submitted" without sending anything |
| PushChainService.SwallowedErrorsStillSend | src/services/pushChainService.js:422-461 | for a non-player or a waiting game the pre-flight error is swallowed and the transaction is sent |
| PushChainService.MultiplayerGameResult | src/services/pushChainService.js:578-624 | there is a winner exactly when the winner is not the zero address; the player wins exactly when they are that winner (case-insensitive), and then the prize is 1.9 × the stake, otherwise 0; both finished means both flags; the game state is copied; scores are assigned by role |
| PushChainService.ResultsAreMirrored | src/services/pushChainService.js:587-609 | the two players see each other's scores swapped and cannot both win |
| PushChainService.FinalizeStuckGame | src/services/pushChainService.js:630-666 | without a contract the call is refused; it succeeds exactly on a mined receipt with non-zero status |
| ResultsScreen.IsNewBestAsWritten | src/components/ResultsScreen.js:20 | the badge test as written compares the score with the stored best |
| ResultsScreen.NewBestNeverShown | src/components/ResultsScreen.js:20 | as written, the badge is never shown after a game ends |
| ResultsScreen.NewBestLostOnResults | src/components/ResultsScreen.js:20 | some game sets a new best and still shows no badge |
| ResultsScreen.NewBest | src/components/ResultsScreen.js:20 | corrected: the badge shows exactly when ending the game raised the best, which then equals the score |
| ResultsScreen.Delay | src/components/ResultsScreen.js:63 | 4000 ms on the first attempt and 2000 ms after |
| ResultsScreen.PollStep | src/components/ResultsScreen.js:62-106 | as written, a stuck game whose finalize call returns restarts polling at attempt 1 of 5 and counts one more finalize call |
| ResultsScreen.Repeat | src/components/ResultsScreen.js:62-106 | n copies of an event |
| ResultsScreen.StuckGamePollsForever | src/components/ResultsScreen.js:73-87 | as written, a game that stays stuck keeps the poll pending through any number of rounds, with one finalize call per round |
| ResultsScreen.PollStepFixed | src/components/ResultsScreen.js:62-106 | corrected: a settled result is shown and polling stops; the shown result changes only when polling stops; finalize is tried at most once; every step lowers the remaining budget |
| ResultsScreen.FixedPollingEnds | src/components/ResultsScreen.js:62-106 | corrected: once as many events have arrived as the budget, polling has stopped, with at most one finalize call |
| ResultsScreen.PollingFromSubmitEnds | src/components/ResultsScreen.js:62-118 | corrected: polling started after a submission ends within 15 rounds, with at most one finalize call |
| ResultsScreen.ResultsView.constructor | src/components/ResultsScreen.js:23 | not submitted, nothing polling |
| ResultsScreen.ResultsView.SubmitEffect | src/components/ResultsScreen.js:53-140 | the score is submitted exactly when there is a game id, a connection and a wallet and nothing was submitted yet; the flag is set and polling starts, whether or not the submission succeeded |
| ResultsScreen.ResultsView.Fire | src/components/ResultsScreen.js:65-105 | one round of polling is the corrected poll step |
| ResultsScreen.ResultsView.PollUntilStopped | src/components/ResultsScreen.js:62-106 | the loop's rounds are the corrected run, and it fires no more rounds than the budget |
| ResultsScreen.EffectRunsTwice | src/components/ResultsScreen.js:55-56 | a second run of the effect never submits again |
| MultiplayerLobby.PollIsLaxer | src/components/MultiplayerLobby.js:115-139 | whatever the push channel accepts as a join the poll accepts too, and they differ only on a second player equal to the host |
| MultiplayerLobby.Begin | src/components/MultiplayerLobby.js:91-98 | watching starts active and polling, with no start yet |
| MultiplayerLobby.Step | src/components/MultiplayerLobby.js:91-154 | as written, one event starts at most one game, and cleanup stops the watcher |
| MultiplayerLobby.HostStartsTwice | src/components/MultiplayerLobby.js:135-145 | as written, a poll read in flight when the push starts the game starts it a second time |
| MultiplayerLobby.StepFixed | src/components/MultiplayerLobby.js:91-154 | corrected: earlier starts are kept and at most one is added, only while active, and it ends activity; a push starts exactly on the strict join test and starts the pushed game; a tick of an active, polling watcher puts one more read in flight; a resolved read takes one read off and, while active, starts exactly on the lax join test, starting the game read and stopping the poll; a resolve with no read in flight and an inactive push change nothing; cleanup only deactivates and stops polling |
| MultiplayerLobby.HostStartsAtMostOnce | src/components/MultiplayerLobby.js:91-154 | corrected: across any events the host starts the game at most once |
| MultiplayerLobby.HostWatcher.constructor | src/components/MultiplayerLobby.js:91-98 | the watcher begins on the created game |
| MultiplayerLobby.HostWatcher.OnUpdate | src/components/MultiplayerLobby.js:101-132 | a pushed update is the corrected step |
| MultiplayerLobby.HostWatcher.OnPollTick | src/components/MultiplayerLobby.js:135-138 | a poll tick is the corrected step |
| MultiplayerLobby.HostWatcher.OnPollRead | src/components/MultiplayerLobby.js:138-145 | a poll's answer is the corrected step |
| MultiplayerLobby.HostWatcher.OnCleanup | src/components/MultiplayerLobby.js:148-153 | cleanup is the corrected step |
| MultiplayerLobby.HandleCreate | src/components/MultiplayerLobby.js:173-226 | a missing tier is rejected before a missing wallet; the host watches exactly when the service created the game, on its id |
| MultiplayerLobby.HandleJoin | src/components/MultiplayerLobby.js:228-256 | a missing wallet is rejected; the joiner starts exactly when the join succeeded, on that game |
| MultiplayerLobby.CreateNeedsTierAndWallet | src/components/MultiplayerLobby.js:174-182 | without a tier or wallet the service is never reached |
| MultiplayerLobby.CanJoin | src/components/MultiplayerLobby.js:441-442 | one's own game is never joinable, and any other game is joinable while nothing is loading |
| MultiplayerLobby.TierForWei | src/components/MultiplayerLobby.js:439 | the card's tier is the table entry with the same wei string, or none when no entry has it |
| MultiplayerLobby.TierForWeiFrom | src/components/MultiplayerLobby.js:439 | the search from position i finds an entry at or after i with that wei string, or proves there is none |
| MultiplayerLobby.TierForOwnWei | src/components/MultiplayerLobby.js:439 | every tier's wei string finds that tier |
| MultiplayerLobby.PrizeTenths | src/components/MultiplayerLobby.js:359 | the displayed prize is twice the stake, more than the 1.9 × paid out |
| GamesRoute.OpenGames | backend/routes/games.js:14-25 | exactly the waiting games created within the last minute, and no more games than before |
| GamesRoute.OpenGamesIdempotent | backend/routes/games.js:14-45 | sweeping a swept list changes nothing, so the sweep leaves what `/available` lists |
| GamesRoute.FindGame | backend/routes/games.js:89-90 | the first position with the id, or -1 exactly when no game has it |
| GamesRoute.LookupThrows | backend/routes/games.js:89 | the lookup throws exactly when a game without an id comes before every game with the id |
| GamesRoute.IdsPresentNeverThrows | backend/routes/games.js:55-89 | a cache in which every game has an id never makes a lookup throw |
| GamesRoute.MissingIdBlocksLaterGames | backend/routes/games.js:55-89 | a game created without an id, ahead of a game, makes every lookup of that game throw |
| GamesRoute.RemoveFirst | backend/routes/games.js:131-134 | the first game with the id goes, other games stay, nothing new appears, and an unknown id changes nothing |
| GamesRoute.FinishTwiceIsFinishOnce | backend/routes/games.js:131-145 | with unique ids, a finished game's id is gone, and finishing it again changes nothing |
| GamesRoute.Joined | backend/routes/games.js:91-94 | a joined game has its second player, state 1 and join data, and keeps its creation data |
| GamesRoute.JoinedIsNotOpen | backend/routes/games.js:14-45 | a joined game is never listed again |
| GamesRoute.GamesCache.constructor | backend/routes/games.js:7 | the cache starts empty, in a running process |
| GamesRoute.GamesCache.Sweep | backend/routes/games.js:10-33 | the cache becomes its open games and the count removed is the difference |
| GamesRoute.GamesCache.Available | backend/routes/games.js:36-50 | exactly the open games, with the cache untouched |
| GamesRoute.GamesCache.Create | backend/routes/games.js:53-80 | one waiting, open game is appended with the id as given, possibly none; an id given keeps every id present |
| GamesRoute.GamesCache.Join | backend/routes/games.js:83-122 | a lookup that throws is a 500; otherwise a known id marks its first game joined, leaving the others, and an unknown id is a 404; only a successful join changes the cache |
| GamesRoute.GamesCache.RemoveStarted | backend/routes/games.js:102-112 | the timer's lookup throws, uncaught, exactly when `LookupThrows` holds; the process then ends and every cached game is lost; otherwise the game is removed only if it is still there and no longer waiting |
| GamesRoute.GamesCache.Finish | backend/routes/games.js:125-150 | finishing fails with a 500 exactly when the lookup throws, and then changes nothing; otherwise the game is removed if present and the finish succeeds |
| GamesRoute.JoinThenRemove | backend/routes/games.js:89-112 | the timer is set only by a successful join; joining and then letting the timer fire removes the game's id and keeps every other game, and never ends the process; when the join's lookup throws, the cache is unchanged |
| GamesRoute.SweptJoinThrowsInTimer | backend/routes/games.js:10-33 | a joined game swept before its timer fires lets the timer's lookup reach a game without an id and throw, although the join's own lookup succeeded |
| BlockchainIndexer.PassEvents | backend/services/blockchainIndexer.js:89-158 | a pass handles both event families of each configured contract, and nothing without contracts |
| BlockchainIndexer.BetTierFromAmount | backend/services/blockchainIndexer.js:435-447 | 0.5, 1 and 5 ether map to tiers 2, 3 and 4 exactly, and every other amount to 1 |
| BlockchainIndexer.BetTierFromAmountMatchesTable | backend/services/blockchainIndexer.js:435-447 | every client tier's stake maps back to its id |
| BlockchainIndexer.UpsertPlayer | backend/services/blockchainIndexer.js:383-415 | as written: a known player gains the wager, or a win and the winnings, and nothing else; a new player starts with one game per wager or one win; other players are unchanged |
| BlockchainIndexer.IncrementGamesPlayed | backend/services/blockchainIndexer.js:417-433 | only a known player's game count grows by one |
| BlockchainIndexer.CreatedRecord | backend/services/blockchainIndexer.js:242-267 | a created game waits, without second player or winner, at the tier of its stake |
| BlockchainIndexer.WinnerColumn | backend/services/blockchainIndexer.js:356-363 | the zero address is stored as no winner |
| BlockchainIndexer.FinishedRecord | backend/services/blockchainIndexer.js:356-363 | a finished game has state 2, both flags set and the winner column |
| BlockchainIndexer.EventLogEntry | backend/services/blockchainIndexer.js:207-378 | the log row carries the event's type (an NFT game creation is logged as `GameCreated` too), the game id exactly for the multiplayer events, and the creator, joiner, winner or NFT player |
| BlockchainIndexer.Handle | backend/services/blockchainIndexer.js:200-381 | as written, every event appends its own log row and nothing else to the log |
| BlockchainIndexer.GamesPlayedMiscounted | backend/services/blockchainIndexer.js:320-331 | as written, a new host ends a created-and-joined game with 2 games, and a returning joiner's count does not move |
| BlockchainIndexer.UpsertPlayerFixed | backend/services/blockchainIndexer.js:383-415 | corrected: the wager and win arithmetic as written, but the game count is never touched |
| BlockchainIndexer.JoinPlayersFixed | backend/services/blockchainIndexer.js:319-331 | corrected: the joiner's wager is added, the joiner counts one more game and a known host one more, and every other player is unchanged |
| BlockchainIndexer.HandleFixed | backend/services/blockchainIndexer.js:239-381 | corrected: the event's log row is appended; a create inserts the record unless one exists and records the creator's wager without counting a game; a join sets player 2 and state 1, adds the joiner's wager, counts one game for the joiner and one for a known host, and leaves every other player alone; a finish writes the finished record and, exactly for a real winner, records the win; NFT events touch neither games nor players |
| BlockchainIndexer.CreatedThenJoinedCountsOnce | backend/services/blockchainIndexer.js:239-344 | corrected: a created-and-joined game counts exactly one game for each player and records the join |
| BlockchainIndexer.HandleAll | backend/services/blockchainIndexer.js:99-157 | one log entry per handled event |
| BlockchainIndexer.LogOnlyGrows | backend/services/blockchainIndexer.js:99-157 | handling events never rewrites earlier log entries |
| BlockchainIndexer.Indexer.constructor | backend/services/blockchainIndexer.js:21-26 | idle, with the starting cursor |
| BlockchainIndexer.Indexer.BeginPass | backend/services/blockchainIndexer.js:68-97 | a running pass makes the call return at once; otherwise a pass runs exactly when the chain is ahead, over the range from the block after the cursor up to the current block |
| BlockchainIndexer.Indexer.CompletePass | backend/services/blockchainIndexer.js:87-196 | the loop handles the events in order up to any failure; the cursor moves to the current block only on success and never backwards; the running flag is always cleared |
| SupabaseService.BetTierName | src/services/supabaseService.js:401-409 | ids 1 to 4 are named by their stake in PC, anything else "Unknown" |
| SupabaseService.TierNamesStateStakes | src/services/supabaseService.js:401-409 | every client tier's name states its stake |
| SupabaseService.GameStateName | src/services/supabaseService.js:414-421 | states 0 to 2 are named and anything else is "Unknown" |
| SupabaseService.GameStateNamesDistinct | src/services/supabaseService.js:414-421 | the three states have different names |
| SupabaseService.CreatedRow | src/services/supabaseService.js:17-40 | a created row waits without a second player and unfinished |
| SupabaseService.JoinedRow | src/services/supabaseService.js:45-67 | a joined row has its second player, state 1 and the join data, and keeps the rest |
| SupabaseService.MarkPlayerFinished | src/services/supabaseService.js:191-218 | an unreadable game is an error; the exact host address marks the host's columns and any other address the second player's |
| SupabaseService.MarkingIsCaseSensitive | src/services/supabaseService.js:196-205 | the host's address in other letter case marks the second player although the addresses compare equal |
| SupabaseService.InsertByAge | src/services/supabaseService.js:84 | inserting by age adds exactly the row |
| SupabaseService.InsertByAgeBound | src/services/supabaseService.js:84 | insertion keeps an upper bound on ages |
| SupabaseService.InsertByAgeSorted | src/services/supabaseService.js:84 | insertion keeps a list newest first |
| SupabaseService.ByAge | src/services/supabaseService.js:84 | ordering by age gives a newest-first permutation |
| SupabaseService.AvailableGames | src/services/supabaseService.js:73-99 | exactly the waiting rows of the last five minutes, of the tier when one is given, each as often as stored, newest first; a failed query lists nothing |
| TaskbarControls.KeyToggles | src/hooks/useTaskbarControls.js:4-13 | a key toggles pause exactly in a running game and for Space, p or P |
| TaskbarControls.LowerIsP | src/hooks/useTaskbarControls.js:6 | a key lower-cases to "p" exactly when it is p or P |
| TaskbarControls.VisibilityPauses | src/hooks/useTaskbarControls.js:15-20 | hiding the page only ever pauses, and only when blurring would too |
| TaskbarControls.BlurPauses | src/hooks/useTaskbarControls.js:22-27 | blurring the window only ever pauses |
| TaskbarControls.AutoPauseNeverResumes | src/hooks/useTaskbarControls.js:15-27 | neither automatic path can unpause, and a visible page never pauses |
| PointPopups.AddPopup | src/hooks/usePointPopups.js:6-18 | exactly one popup is appended after the others, of type token by default |
| PointPopups.RemovePopup | src/hooks/usePointPopups.js:20-22 | exactly the popups with the id go, the others stay as often as before, and an absent id changes nothing |
| PointPopups.RemoveKeepsOrder | src/hooks/usePointPopups.js:20-22 | removal distributes over concatenation, keeping order |
| PointPopups.RemoveUndoesAdd | src/hooks/usePointPopups.js:6-22 | removing a freshly added popup restores the list |
| PointPopups.ClearAllPopups | src/hooks/usePointPopups.js:24-26 | clearing leaves no popup |
| MissedNotifications.AddMissedNotification | src/hooks/useMissedTokenNotifications.js:6-13 | exactly one notification is appended after the others |
| MissedNotifications.RemoveMissedNotification | src/hooks/useMissedTokenNotifications.js:15-17 | exactly the notifications with the id go, the others stay as often as before, and an absent id changes nothing |
| MissedNotifications.RemoveKeepsOrder | src/hooks/useMissedTokenNotifications.js:15-17 | removal keeps the order of the rest |
| MissedNotifications.RemoveUndoesAdd | src/hooks/useMissedTokenNotifications.js:6-17 | removing a freshly added notification restores the list |
| MissedNotifications.RemoveIdempotent | src/hooks/useMissedTokenNotifications.js:15-17 | removing twice is removing once |
| MissedNotifications.ClearAllMissedNotifications | src/hooks/useMissedTokenNotifications.js:19-21 | clearing leaves no notification |

## Left out

- Rendering is not modelled. This covers canvas drawing, images, particles, slice and explosion effects, screen flashes, JSX and the screen routing.
- Kinematics are reduced to the comparisons the logic makes. The speed multipliers, wobble, rotation and bounce curves are floating point and have no effect on the modelled thresholds. An item's new horizontal position is a parameter.
- The following are parameters: `Math.random`, `Date.now()`, the canvas and its bounding rectangle, and `Math.sqrt`. Distances are compared squared, and a speed is given together with its square.
- Timers (`setInterval`, `setTimeout`, `requestAnimationFrame`) are explicit calls and events. Their interleavings are modelled only where a finding depends on them, as event sequences.
- Remote collaborators are not modelled; their answers are inputs. These are the ethers contracts, the wallet SDK, Supabase queries and subscriptions, socket.io broadcasts and HTTP responses.
- `localStorage` reads and writes in `endGame` are not modelled. The stored bests are fields of the record.
- Analytics calls and console logging are not modelled.
- The indexer's database upserts and its event-log `ON CONFLICT` handling are not modelled. The log is an append-only sequence.
- `weiToPc`, the `toFixed(4)` prize text and the unknown-tier stake shown as `parseInt(wei)/1e18` are not modelled. The prize is a real number, 1.9 × the stake.
- The parsing of `created_at` dates is not modelled. Times are milliseconds.
- `getDailyBonus` is not modelled because it depends on wall-clock dates and `localStorage`.
- The Aptos helpers `getGameCreatedEvents`, `getGameJoinedEvents` and `getGame` are not modelled because they refer to a client that does not exist.
- The results screen's NFT mint flow and leaderboard display are not modelled. They are UI around remote calls.
- The shortcut list of the taskbar hook is not modelled. It is display text.
- `PushChainService.SubmitMultiplayerScore`: an uninitialised service throws, and callers catch that as a failed submission. The model returns a `NotInitialized` answer instead.
- `SlashDetection.Steps`: the `floor(speed/2)` count is exact only from a speed of 10 on. Below that the count is 5, matching `max(5, …)`.
- `SlashDetection.MousePos`: the contract states only the corners of the mapping and its monotonicity, not the full scaling formula.
- `GameLoop.Tick`: states bounds rather than the full new state. `TickFixed`, `TickForgetsPruned` and `TickFixedChargesEachMissOnce` state the rest.
- `GameLoop.ItemLoop.SpawnItem`: the item count a scheduled spawn saw is a parameter. The model does not derive it from React's render order, so a late wave may take the list past 12 items, and only `TrimOnVisible` brings it back.
- `GameScreen.Spawner.Restart`: the re-runs of the spawner effect are explicit calls. The model does not derive them from React's dependency comparison.
- The `slashPath` state of the slash hook is not modelled. The hook returns it, but no caller reads it.
- `BlockchainIndexer.Handle`: the as-written handler is stated only through its log row and the `GamesPlayedMiscounted` witness. The corrected `HandleFixed` states the new games, players and log for every event.
- `MultiplayerLobby.Step`: the as-written watcher is stated through its bound on starts and the `HostStartsTwice` witness. The corrected `StepFixed` states the new watcher for every event.
- Game ids in the backend cache are strings, because the routes compare string forms. A game created without an id holds none. The numeric `parseInt` in the responses is not modelled.

## Findings

| source | as written | input that shows it | evidently intended | confidence | as-written member | corrected member |
|---|---|---|---|---|---|---|
| src/hooks/useGameLoop.js:352-363 | the missed callback is deferred to the next frame and fires only if the id is still in `penalizedFruits`, but the same tick's filter (381-393) deletes the ids of items that left the field | a token at y = 640 falling at 60 per tick on a 600-high canvas crosses the exit line and the field edge in one tick: it is marked, pruned, and no life is lost | every missed good item costs exactly one life | not executed | GameLoop.MissedPenaltyLostWhenPruned | GameLoop.TickFixedChargesEachMissOnce |
| src/components/ResultsScreen.js:20 | the new-best badge compares the score with the best, but `endGame` has already raised the best to the score | any game whose score beats the old best, e.g. best 0 and score 10 | show the badge when this game raised the best | not executed | ResultsScreen.NewBestNeverShown | ResultsScreen.NewBest |
| src/components/ResultsScreen.js:73-87 | a stuck game (both finished, no winner) calls finalize, which reports failure by its return value instead of throwing, and polling restarts at attempt 1 of 5 every time | a game whose finalize transaction keeps reverting: every round finds it stuck and polling never ends | polling bounded, with one repair attempt | not executed | ResultsScreen.StuckGamePollsForever | ResultsScreen.PollingFromSubmitEnds |
| src/components/MultiplayerLobby.js:135-145 | the poll's callback does not re-check `isActive` after awaiting the game read | a poll read in flight when the pushed update starts the game and cleanup runs: the read then starts the game again | the host starts the game once | not executed | MultiplayerLobby.HostStartsTwice | MultiplayerLobby.HostStartsAtMostOnce |
| backend/services/blockchainIndexer.js:404-413 | a new player's first wager counts one game, and a join also increments the host's count (322-331), while a known joiner's count never moves | a new host "0xa" ends a created-and-joined game with 2 games; a known joiner "0xb" with 5 games stays at 5 | one game per player per game | not executed | BlockchainIndexer.GamesPlayedMiscounted | BlockchainIndexer.CreatedThenJoinedCountsOnce |
