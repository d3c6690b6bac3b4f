# WildHunting in Dafny

A model of the game logic of WildHunting, a browser hunting game. The model covers:

- The single game store: score, ammunition, stamina, the hunt log, scent and blood trails, posture and the input triggers.
- The animals: perception, movement, trail emission, wounding and death. At the population level it covers spawning, the per-species centroid pass and the delayed respawn after a kill.
- The player: the fire gate, shot inaccuracy, choosing the struck animal, jumping and falling, mouse look and key handling.
- The top-level pause/start state machine.
- The destructible props.
- The grid-jitter forest generator.
- The two instanced trail meshes: blood decals and tracker-vision markers.
- The string handling around the Gemini calls.

There is one Dafny module per source file:

- `Types` holds the shared data types (`types.ts`) and small helpers: JavaScript's `%`, `toLowerCase` on ASCII, and the trail fade.
- `Constants` holds `constants.ts`.
- `GameStore` is `store/useGameStore.ts`, a class whose methods are the store actions.
- `AnimalsController` is `components/AnimalsController.tsx`. Pure perception, speed and hit functions sit beside an `AnimalEntity` class (one animal's refs and state) and a `Controller` class (the population).
- `Player` is `components/Player.tsx`, and `App` is `App.tsx`.
- `Interactables` is `components/Interactables.tsx`. The props are an array of values updated in place each frame.
- `ForestEnvironment` is `components/ForestEnvironment.tsx`.
- `BloodTrails` and `TrackerVision` are the two instanced meshes. Each has an array of 500 or 1000 slots that is refilled every frame.
- `GeminiService` is `services/geminiService.ts`.

Inputs that the program reads from outside come in as parameters:

- `Math.random` comes in as roll records or as a stream of unit draws.
- `Date.now` and the frame clock come in as numbers.
- The raycast's intersection list is an input.
- The `aistudio` host's answer is an input.
- Each Gemini reply is an input.

Timers (`setInterval`, `setTimeout`) are event methods that the caller invokes. Distances are compared squared, and `DetectsSqAgrees` proves this the same as comparing the distances.

## Model

| member | source | states |
|---|---|---|
| GameStore.Store.constructor | store/useGameStore.ts:66-85 | The initial state: menu, score 0, ammo 10, stamina 100, clear weather, empty log and trails, aim assist on, no posture, counters 0. It satisfies the store invariant. |
| GameStore.Store.AddScore | store/useGameStore.ts:93 | The score rises by exactly the points given, and nothing else changes. |
| GameStore.Store.RecordHunt | store/useGameStore.ts:94-97 | The record goes to the front of the log, and the hunt total rises by one. The invariant totalHunted == \|huntLog\| is kept. |
| GameStore.AmmoAfterShot | store/useGameStore.ts:98 | One round fewer when ammo is positive, 0 otherwise, never negative. |
| GameStore.Store.UseAmmo | store/useGameStore.ts:98 | Ammo becomes AmmoAfterShot of the old ammo, so it stays within [0, 10]. |
| GameStore.Store.ReloadAmmo | store/useGameStore.ts:99 | Ammo becomes exactly 10. |
| GameStore.ClampStamina | store/useGameStore.ts:101 | The result lies in [0, 100]. It equals the input inside that range and the nearer bound outside it. |
| GameStore.Store.SetStamina | store/useGameStore.ts:101 | Stamina becomes the clamped value, and the invariant is kept. |
| GameStore.LastN | store/useGameStore.ts:105-110 | slice(-n): the last min(n, \|s\|) elements, in order. |
| GameStore.Store.AddScentPoint | store/useGameStore.ts:105-107 | The trail becomes the last 1000 old points followed by the new one. The new point is last, and the length stays at most 1001. |
| GameStore.Store.AddBloodPoint | store/useGameStore.ts:108-110 | The trail becomes the last 500 old points followed by the new one. The new point is last, and the length stays at most 501. |
| GameStore.Filter | store/useGameStore.ts:114-115 | Array.filter: an element is kept exactly when it is in the input and satisfies the predicate, and the result is never longer. |
| GameStore.FilterConcat | store/useGameStore.ts:114-115 | Filtering distributes over concatenation, so relative order is kept. |
| GameStore.FilterIdempotent | store/useGameStore.ts:114-115 | A second filter with the same predicate removes nothing. |
| GameStore.FilterKeepsAll | store/useGameStore.ts:114-115 | A filter that every element passes returns its input. |
| GameStore.FreshScent | store/useGameStore.ts:114 | A scent point survives exactly when now - timestamp < 30000. |
| GameStore.FreshBlood | store/useGameStore.ts:115 | A blood point survives exactly when now - timestamp < 60000. |
| GameStore.CleanIdempotent | store/useGameStore.ts:111-117 | Sweeping twice at the same instant is the same as sweeping once. |
| GameStore.CleanKeepsOrder | store/useGameStore.ts:111-117 | The sweep of a concatenation is the concatenation of the sweeps. |
| GameStore.Store.CleanOldTrails | store/useGameStore.ts:111-117 | Both trails become their fresh filters, and the invariant is kept. |
| GameStore.Store.SetPosture | store/useGameStore.ts:119-122 | Crouching holds exactly for the crouching posture and prone exactly for the prone one. Standing clears both, and the two are never on together. |
| GameStore.Store.TriggerJump | store/useGameStore.ts:125 | The jump counter rises by exactly one. |
| GameStore.Store.TriggerShoot | store/useGameStore.ts:126 | The shoot counter rises by exactly one. |
| GameStore.Store.SetGameState | store/useGameStore.ts:92 | The game state becomes the given one. |
| GameStore.Store.SetAnimalsCount | store/useGameStore.ts:100 | The active-animal count becomes the given one. |
| GameStore.Store.SetWeather | store/useGameStore.ts:102 | The weather becomes the given one. |
| GameStore.Store.SetTrackerVision | store/useGameStore.ts:103 | Tracker vision becomes the given flag. |
| GameStore.Store.SetAimAssist | store/useGameStore.ts:104 | Aim assist becomes the given flag. |
| GameStore.Store.SetAiming | store/useGameStore.ts:123 | Aiming becomes the given flag. |
| AnimalsController.DetectsWithinRadius | components/AnimalsController.tsx:110-113 | Detection holds exactly inside one radius: the largest of the weather-scaled sight range, the scent range 18 and the weather-scaled hearing range. Weather never widens detection, and anything inside 18 is always detected. |
| AnimalsController.DetectsSqAgrees | components/AnimalsController.tsx:108-113 | The squared-distance test used by the model decides the same as the source's distance test. |
| AnimalsController.SquareMonotone | components/AnimalsController.tsx:113 | For non-negative d and r, d < r exactly when d² < r². |
| AnimalsController.PerceiveCases | components/AnimalsController.tsx:113-121 | A fleeing animal keeps fleeing, and an undetected one keeps its behaviour. A detected one flees inside 18 and turns alert at 18 or more. |
| AnimalsController.SpeedFacts | components/AnimalsController.tsx:125-126 | Only fleeing and wandering move. A wound never speeds an animal up, and fleeing is the fastest. |
| AnimalsController.HomeTarget | components/AnimalsController.tsx:67 | The way-home target lies on the ground within 25 of the centre on each axis. |
| AnimalsController.WanderTargetNearby | components/AnimalsController.tsx:76-83 | Without the group pull, the wander target lies within 15 of the animal on each axis and on the ground. |
| AnimalsController.WanderTowardGroup | components/AnimalsController.tsx:77-80 | With the group pull, the target is the random offset plus a step of exactly 15 from the animal along the line to its species' centroid. |
| AnimalsController.FleeTargetAway | components/AnimalsController.tsx:116-118 | The flee target lies exactly 50 from the animal, and never closer to the player than the animal is. |
| AnimalsController.HitPushLength | components/AnimalsController.tsx:156 | A hit anywhere but the animal's own position moves its target by exactly 60. |
| AnimalsController.AnimalEntity.constructor | components/AnimalsController.tsx:18-28 | The refs and state start from the animal record: full health, alive, both positions at the record's position, all timers 0. |
| AnimalsController.AnimalEntity.OnTimer | components/AnimalsController.tsx:59-87 | A dead or fleeing animal does nothing. One beyond 0.8 of the world size heads home. Otherwise draw 1 decides idle (above 0.8) or wander toward a new target. The group pull, when the roll allows it, heads for the controller's centroid of the animal's species. |
| AnimalsController.AnimalEntity.EmitTrails | components/AnimalsController.tsx:95-102 | A scent point is emitted when the animal is moving and more than 2.5 s have passed since the last one. A blood point needs a wound as well, and more than 1 s since the last. Each point goes through the store's append. |
| AnimalsController.AnimalEntity.Sense | components/AnimalsController.tsx:105-122 | At most once per 0.4 s the behaviour becomes Perceive of the distance to the player's ground position. A new flight sets the target 50 units from the animal, straight away from that position. |
| AnimalsController.AnimalEntity.Move | components/AnimalsController.tsx:124-129 | With the behaviour the frame was rendered with, a moving animal more than 1.5 from its target lerps toward it by speed·delta·8. Otherwise it stays put. |
| AnimalsController.AnimalEntity.Tick | components/AnimalsController.tsx:89-148 | A dead animal changes nothing. Otherwise emission, perception and movement run in that order. All three read the behaviour the frame was rendered with, and movement heads for the target that perception may have just set. Health and death never change in a frame. |
| AnimalsController.AnimalEntity.HandleHit | components/AnimalsController.tsx:150-158 | The new vitals and the kill flag are AfterHit of the old ones. The flee target is pushed 60 along the direction from the hit point to the animal, and a dead animal is untouched. |
| AnimalsController.AnimalEntity.TakeDamage | components/AnimalsController.tsx:151-157 | The damage part of the handler: the new vitals and the kill flag are AfterHit of the old ones. |
| AnimalsController.DeadIgnoresHits | components/AnimalsController.tsx:151 | Any number of hits on a dead animal changes nothing and kills nothing. |
| AnimalsController.KillFiresAtMostOnce | components/AnimalsController.tsx:151-157 | Over any run of hits onKilled fires at most once. It fires exactly when a living animal ends dead, and death is permanent. |
| AnimalsController.SurvivingHits | components/AnimalsController.tsx:152-155 | Hits that leave health positive take exactly Damage per hit with no clamp, and make the animal flee. |
| AnimalsController.AfterHitsSnoc | components/AnimalsController.tsx:150-158 | n + 1 hits are n hits followed by one more. |
| AnimalsController.BearDiesOnEighthHit | components/AnimalsController.tsx:152-157 | A 300-health bear is at 20 after 7 hits and dies on the 8th, at -20. |
| AnimalsController.SmallGameDiesOnFirstHit | components/AnimalsController.tsx:152-157 | Every species other than the bear dies on the first hit. |
| AnimalsController.NewAnimal | components/AnimalsController.tsx:202-210 | A spawned animal has its species' base health, is alive and wanders. |
| AnimalsController.SpawnInSquare | components/AnimalsController.tsx:205 | A spawned animal lies within 187.5 of the centre on each axis, at height 0.5. |
| AnimalsController.SpeciesIndex | constants.ts:25-30 | Every species has its place in the species table. |
| AnimalsController.CountOf | components/AnimalsController.tsx:196-214 | The per-species count never exceeds the list length. |
| AnimalsController.CountConcat | components/AnimalsController.tsx:196-214 | Counts add over concatenation. |
| AnimalsController.CountUniform | components/AnimalsController.tsx:200-211 | A list of one species counts its length for that species and 0 for the others. |
| AnimalsController.Without | components/AnimalsController.tsx:239 | filter(a => a.id !== id): exactly the records with another id, never longer. |
| AnimalsController.WithoutDistinct | components/AnimalsController.tsx:239 | Filtering keeps ids distinct. |
| AnimalsController.WithoutRemovesOne | components/AnimalsController.tsx:239 | With distinct ids, filtering out a present id removes exactly one record, of that record's species. |
| AnimalsController.WithoutAbsent | components/AnimalsController.tsx:239 | Filtering out an absent id changes nothing. |
| AnimalsController.NoLiveNoSum | components/AnimalsController.tsx:221-226 | A species with no living record has zero coordinate sums. |
| AnimalsController.AddRecordTallies | components/AnimalsController.tsx:221-226 | Each step of the pass keeps the running sums and counts exact for the prefix seen so far. |
| AnimalsController.Centroids | components/AnimalsController.tsx:218-228 | The result has an entry exactly for each species with a living record. The entry is the mean x and z of that species' living records, on the ground. |
| AnimalsController.CentroidsOfTallies | components/AnimalsController.tsx:227 | Dividing exact sums by their counts gives the centroids. |
| AnimalsController.Controller.constructor | components/AnimalsController.tsx:192-194 | No animals, nothing pending, no centroids. |
| AnimalsController.Controller.Spawn | components/AnimalsController.tsx:196-215 | Exactly 20 animals with distinct ids, 5 of each species, each NewAnimal of its roll. The store's count is set to 20. |
| AnimalsController.Controller.UpdateCentroids | components/AnimalsController.tsx:217-231 | On frames in the first 0.05 s of each 1.5 s period, every species with a living record gets an entry and no other species does. Each entry is the mean x and z of that species' living records, on the ground. Otherwise the centroids are kept. |
| AnimalsController.Controller.OnKilled | components/AnimalsController.tsx:233-237 | The species' score is added, a hunt record goes to the front of the log, and the respawn is queued. |
| AnimalsController.Controller.FireRespawn | components/AnimalsController.tsx:237-253 | The killed record is filtered out and a fresh one of its species is appended, so the total and every species count are unchanged. Ids stay distinct, and the store's count is the new length. |
| AnimalsController.RespawnCounts | components/AnimalsController.tsx:239-249 | Replacing a killed record by one of the same species keeps the length and every species count. |
| AnimalsController.RespawnIds | components/AnimalsController.tsx:239-249 | Replacing it by one with a fresh id keeps ids distinct and below the next id. |
| Player.InaccuracyNonNegative | components/Player.tsx:55-61 | The shot spread is never negative for stamina up to 100. |
| Player.PostureOrdersInaccuracy | components/Player.tsx:55-61 | Prone is at least as steady as crouching, and crouching at least as steady as standing. |
| Player.AimingNarrowsInaccuracy | components/Player.tsx:60-61 | Aiming strictly narrows the spread. |
| Player.OwnerTag | components/AnimalsController.tsx:163 | The nearest animal tag on the intersected object or its ancestors exists exactly when one of them is tagged. |
| Player.FindTargetAsWritten | components/Player.tsx:68 | As written: a strike exists exactly when some intersected object itself carries the tag. |
| Player.AsWrittenNeverStrikes | components/Player.tsx:67-68 | When the intersected objects are untagged meshes, the shot as written strikes nothing. |
| Player.BodyShotExample | components/Player.tsx:67-72 | A shot into an animal's body mesh strikes nothing as written, but strikes that animal when the tag is read from the owning group. |
| Player.FindTarget | components/Player.tsx:67-72 | No strike exactly when no hit belongs to a tagged animal. Otherwise the strike is the first such hit's animal, at that hit's point. |
| Player.TaggedTargetsAgree | components/Player.tsx:68 | Where tags sit on the intersected objects themselves, both readings agree. |
| Player.MoveSpeedBounds | components/Player.tsx:132-135 | The walking speed is positive and at most the base speed. Aiming slows it, prone is slower than crouching, and crouching slower than standing. |
| Player.ClampPitch | components/Player.tsx:93 | The pitch stays within [-π/2.5, π/4], and an in-range value is kept. |
| Player.Player.constructor | components/Player.tsx:26-38 | Grounded at rest, no shot yet, counters synced to the store's triggers, pitch -0.2. |
| Player.Player.Shoot | components/Player.tsx:40-74 | Without ammo or within 350 ms of the last shot nothing changes and nothing is struck. Otherwise one round is spent, the cooldown restarts, and the spread is Inaccuracy. The strike is FindTarget of the hits, and the strike as line 68 writes it is FindTargetAsWritten. |
| Player.Player.TryJump | components/Player.tsx:137-141 | The jump key or an unseen trigger starts a jump at velocity 10, only from the ground and never prone. |
| Player.Player.ConsumeShootTrigger | components/Player.tsx:143-146 | An unseen shoot trigger is marked seen and makes one shot attempt. Ammo, cooldown and both strikes follow the fire gate exactly; without a trigger nothing changes. |
| Player.Player.AirStep | components/Player.tsx:148-156 | In the air, gravity 25 acts on the velocity and then on the height. Landing clamps the height to 0 and grounds the player. The height never goes below 0. |
| Player.Player.Frame | components/Player.tsx:124-156 | Jump check, shot trigger and air step in order. The exact new velocity, height and grounded flag follow from the jump and then one gravity step, with landing at 0. Ammo, cooldown, the seen-trigger counters and both strikes follow the fire gate. |
| Player.Player.MouseDown | components/Player.tsx:77-84 | Clicks on controls are ignored. A right click or one in the right 60% starts a drag at the click, and a right click starts aiming. |
| Player.Player.MouseMove | components/Player.tsx:86-96 | While dragging, yaw and pitch turn by the mouse delta times the sensitivity, the pitch is clamped, and the last position is updated. Otherwise nothing changes. |
| Player.Player.MouseUp | components/Player.tsx:98-101 | The drag ends, and a right button release stops aiming. |
| Player.Player.KeyDown | components/Player.tsx:103-108 | r reloads, c toggles crouching and z toggles prone, in either case. Other keys change nothing. |
| App.PauseToggle | App.tsx:35-41 | Playing and paused swap; the menu and game-over states are kept. |
| App.PauseTwiceRestores | App.tsx:35-41 | Toggling twice restores the state. |
| App.App.HandleStartGame | App.tsx:16-25 | A host that reports no key opens the key overlay and blocks the start. Otherwise the game starts. |
| App.App.OpenKeyDialog | App.tsx:27-33 | With a host the overlay closes and the game starts. Without one nothing happens. |
| App.App.HandlePause | App.tsx:35-41 | The game state becomes PauseToggle of the old one. |
| App.App.KeyDown | App.tsx:44-47 | Escape toggles the pause, and v in either case turns tracker vision on. |
| App.App.KeyUp | App.tsx:48-50 | Releasing v in either case turns tracker vision off. |
| App.TrackerKeys | App.tsx:44-50 | Exactly the keys "v" and "V" lower to "v". |
| App.App.Resume | App.tsx:119-120 | The resume button sets the game to playing. |
| Interactables.NewProp | components/Interactables.tsx:29-41 | A new prop is intact with full life, at rest, at height 0.1. |
| Interactables.NewPropBounds | components/Interactables.tsx:30-36 | Props lie within 225 of the centre on each axis, with scale in [0.5, 1.3). |
| Interactables.FrameStep | components/Interactables.tsx:75 | The step is min(delta, 0.05). |
| Interactables.BurstBounds | components/Interactables.tsx:104-108 | The burst is upward 2 to 4 and sideways less than 1. |
| Interactables.Shatter | components/Interactables.tsx:81-88 | Life drops by 0.8·dt, the prop never sinks below the ground, and its scale and heading are kept. |
| Interactables.StepLatch | components/Interactables.tsx:78-101 | An intact prop is destroyed exactly when the player is within 1.3, and a destroyed prop stays destroyed. |
| Interactables.IntactStaysPut | components/Interactables.tsx:97-113 | An intact prop does not move and is drawn at full scale. |
| Interactables.StepKeepsAboveGround | components/Interactables.tsx:81-88 | A prop on or above the ground stays there. |
| Interactables.StepDrawnScale | components/Interactables.tsx:80-96 | A shattering prop is drawn at scale·max(0, life), never negative. Once life is gone it is collapsed and unchanged. |
| Interactables.FadeIsFinal | components/Interactables.tsx:78-96 | A faded prop stays exactly as it is over any run of frames. |
| Interactables.Props.constructor | components/Interactables.tsx:26-44 | 150 props, each NewProp of its roll. |
| Interactables.Props.Frame | components/Interactables.tsx:69-118 | Every prop and its transform slot become StepProp of the old prop, with the capped step. The destroyed latch holds, and no prop is below the ground. |
| ForestEnvironment.GridSizeIsCeilSqrt | components/ForestEnvironment.tsx:16 | 29 is the least n with n² ≥ 800. |
| ForestEnvironment.JitterBounds | components/ForestEnvironment.tsx:28-29 | The jitter stays within 0.4 of a cell width. |
| ForestEnvironment.GenerateTrees | components/ForestEnvironment.tsx:10-40 | One jittered spot per visited cell, in grid order, each on the ground near its own cell. The trees are exactly the spots outside the 18-unit start zone, in order. Cells are visited until 800 trees exist or all 841 cells are done. Headings lie in [0, 2π) and sizes in [0.9, 2.3). |
| ForestEnvironment.PlantRow | components/ForestEnvironment.tsx:20-37 | One row of the grid keeps the same planting invariant: every visited cell adds its spot, trees are exactly the spots outside the start zone, and the row ends early only when 800 trees exist. |
| ForestEnvironment.PlantStep | components/ForestEnvironment.tsx:18-37 | Visiting one cell records its spot, and keeps a tree with a heading and a size exactly when the spot is outside the start zone. |
| ForestEnvironment.NewRockBounds | components/ForestEnvironment.tsx:46-52 | Rocks lie within 237.5 of the centre on each axis, with size in [0.5, 2). |
| ForestEnvironment.GenerateRocks | components/ForestEnvironment.tsx:42-56 | Exactly 150 rocks, the k-th made from draws 6k to 6k+5. |
| Types.JsRem | components/BloodTrails.tsx:18 | JavaScript's % on a non-negative clock lies in [0, m). |
| Types.Life | components/BloodTrails.tsx:26 | The fade is non-negative and 0 exactly when the age reaches the span. It is at most 1 for a point from the past. |
| Types.LifeMonotone | components/TrackerVision.tsx:26 | An older point never has more life left. |
| Types.NormalizedLength | components/AnimalsController.tsx:118 | A normalised non-zero vector scaled by a length is exactly that long. |
| Types.LowerAscii | App.tsx:46 | toLowerCase on ASCII letters, character by character. |
| BloodTrails.SlotFor | components/BloodTrails.tsx:22-43 | A slot is drawn only for an existing point, at decal height 0.02. |
| BloodTrails.DrawnIffFresh | components/BloodTrails.tsx:23-37 | Slot i shows a decal exactly when the i-th newest point exists and is one the store's sweep keeps. The decal sits on that point. |
| BloodTrails.DecalSizes | components/BloodTrails.tsx:26-30 | A decal is at most 0.2 across, and of two points the older one is drawn no larger. |
| BloodTrails.OnlyOldestMissed | components/BloodTrails.tsx:7-23 | With at most 501 stored points, every fresh point but the oldest has a drawn slot. With 501 the oldest is never drawn. |
| BloodTrails.Mesh.Frame | components/BloodTrails.tsx:14-45 | The sweep runs when the clock is in the first 0.05 s of each 10 s period. Every slot becomes SlotFor of the list the frame started with. |
| TrackerVision.SlotFor | components/TrackerVision.tsx:22-37 | A slot is drawn exactly when vision is on and the point exists, as a uniform, non-negative scale at height 0.1. |
| TrackerVision.SizeIffFresh | components/TrackerVision.tsx:25-29 | A marker sits on its point and has a visible size exactly when the store's sweep keeps the point. |
| TrackerVision.MarkerSizes | components/TrackerVision.tsx:26-29 | A marker is at most 0.4 across, and the older of two points is drawn no larger. |
| TrackerVision.OnlyOldestMissed | components/TrackerVision.tsx:7-23 | With at most 1001 stored points and vision on, every point but the oldest gets a marker on its spot. |
| TrackerVision.Mesh.Frame | components/TrackerVision.tsx:14-40 | The sweep runs in the first 0.05 s of each 5 s period. Every slot becomes SlotFor of the starting list. The mesh is visible exactly when vision is on, and with vision off every slot is hidden. |
| GeminiService.IndexOf | services/geminiService.ts:73 | The first position of a character. |
| GeminiService.Split | services/geminiService.ts:73 | split(','): at least one piece, no piece contains a comma, and joining the pieces with commas gives the input back. |
| GeminiService.SplitCons | services/geminiService.ts:73 | A comma-free head splits off as the first piece. |
| GeminiService.SplitJoin | services/geminiService.ts:73 | Split inverts Join on comma-free pieces. |
| GeminiService.StripPrefix | services/geminiService.ts:73 | The result is the input, or the non-empty, comma-free second piece. |
| GeminiService.StripNoComma | services/geminiService.ts:73 | A string without a comma passes through unchanged. |
| GeminiService.StripSegment | services/geminiService.ts:73 | The piece after the first comma is taken when it is non-empty. An empty one leaves the whole input. |
| GeminiService.StripEmptySecondPiece | services/geminiService.ts:73 | "a,,b" stays "a,,b". |
| GeminiService.DataUrl | services/geminiService.ts:56-61 | The data URL is the PNG base64 prefix followed by the data. |
| GeminiService.StripDataUrl | services/geminiService.ts:58-73 | Stripping the data URL of non-empty, comma-free data gives the data back. |
| GeminiService.LeadingSpace | services/geminiService.ts:16 | The length of the leading white-space run, which stops at the first other character. |
| GeminiService.TrailingSpace | services/geminiService.ts:16 | Where the trailing white-space run starts. |
| GeminiService.TrimFacts | services/geminiService.ts:16 | trim() removes white space only at the ends, leaves non-white ends, and is empty exactly for all-white input. |
| GeminiService.TrimIdempotent | services/geminiService.ts:16 | Trimming twice is trimming once. |
| GeminiService.QuickTip | services/geminiService.ts:9-20 | An error gives "Listen to the forest closely.". A missing or blank text gives "Stay low, watch the shadows.". Otherwise the result is the trimmed text. |
| GeminiService.QuickTipIsTrimmed | services/geminiService.ts:16-18 | A tip is never empty and is its own trim. |
| GeminiService.DeepStrategy | services/geminiService.ts:23-37 | An error gives the "mysterious" fallback. A missing or empty text gives "Continue your patient vigil.". Otherwise the text is kept untrimmed, and the result is never empty. |
| GeminiService.StrategyKeepsBlanks | services/geminiService.ts:16-33 | A blank reply passes through as a strategy but falls back as a tip. |
| GeminiService.FirstInline | services/geminiService.ts:56-60 | The first part with inline data, with none before it; absent exactly when no part has data. |
| GeminiService.ImageResult | services/geminiService.ts:40-99 | A data URL exists exactly when the call succeeded, the first candidate has parts and one carries data. It is built from the first such part. |
| GeminiService.EditOfGeneratedArt | services/geminiService.ts:58-73 | A generated image passed back for editing is sent as its bare base64 data. |

## Left out

- Audio is left out because it is foreign I/O. This covers `playCall`, `playSnap` and the weather sounds.
- Three.js orientation and presentation are left out because they are float and trig geometry in library code. This covers mesh rotation and `slerp`, the walk bob, the wounded pulse, the camera orbit and weapon sway, and the muzzle flash.
- The shot ray's random perturbation is not modelled, because the raycast's result is an input. `Player.Player.Shoot` returns the spread that the perturbation would use.
- The scene-graph raycast is not modelled. Its intersections, nearest first, each with the userData of the object and its ancestors, are an input.
- The write-back of the animal's position into its record (`components/AnimalsController.tsx:145-147`) is not modelled. The record's `isDead` is never set by the source, so the centroid pass counts dead animals too. `AnimalsController.Centroids` follows that and reads the `isDead` of the records it is given.
- `uuidv4` is not modelled. The model uses a counter, so fresh ids are distinct by construction.
- The `setInterval` and `setTimeout` delays are not modelled. The interval callback, the frame callbacks and the 20 s respawn are methods that the caller invokes. There is no concurrency.
- `AnimalsController.Controller.FireRespawn` runs the queued respawns oldest first. The model takes the source's separate timers to fire in the order they were set.
- `Player.Player.MouseMove`: the aim-assist factor uses an `isNearAnimal` ref that the source never sets, so the factor is always 1. The factor is modelled, with the flag kept false.
- `setStamina` is modelled, but the shown code never calls it, so stamina stays at 100 in play.
- `setJoystickMove`, the joystick and keyboard movement of the player group are not modelled, because they are trig on DOM and camera geometry. The AI-status setters are not modelled because they are UI plumbing.
- `Vector3.normalize()` needs a square root, which the model does not have. Each caller supplies the reciprocal of the length, and a precondition pins that value down exactly. This covers the flee direction, the hit push and the group pull of `AnimalsController.AnimalEntity.Sense`, `HandleHit` and `OnTimer`.
- `AnimalsController.AnimalEntity.OnTimer` takes the controller's whole centroid map and reads its species' entry, which is what the `groupCentroid` prop passes. The model does not connect an entity to a controller instance.
- `AnimalsController.AnimalEntity.HandleHit` applies each hit to the state the previous hit left. The source reads the rendered `health`, so two hits before a re-render would both start from the same health. Hits are taken to be separate events with a render between them.
- `AnimalsController.AnimalEntity.Tick` reads `behavior` through the frame callback's closure, which is the value of the last render. `Move` is therefore given the behaviour from the start of the frame, and a flight that perception starts moves the animal only from the next frame. The model takes a render to happen between any two frames.
- `ForestEnvironment.GenerateTrees` bounds each spot to its own cell but does not name the draws it was made from. The draw index depends on how many earlier cells kept a tree.
- `Types.LowerAscii` lowers only ASCII letters. `toLowerCase` also maps other letters, but every key compared here is ASCII.
- `GeminiService.ImageResult`: an inline part whose `data` field is missing would give the string "data:image/png;base64,undefined". Inline data is modelled as present text.
- The `generateContent` requests (prompts, model names, image configuration) are not modelled, because they are network I/O.
- The props' and meshes' `if (!meshRef.current) return` guards are not modelled. The meshes are taken to be mounted.
- `BloodTrails.Mesh.Frame` and `TrackerVision.Mesh.Frame` draw from the trail list that the component rendered with. Within a frame this is the list from before the sweep the frame requests.
- `Interactables.Props.constructor` builds the props with an array initialiser, not a push loop. The contents are the same.
- The remaining components are not modelled: HUD, MainMenu, GameScene, WeatherSystem, DynamicFoliage and the rendering halves of the modelled components.

## Findings

| source | as written | input that shows it | evidently intended | confidence | as-written member | corrected member |
|---|---|---|---|---|---|---|
| components/Player.tsx:68 | The shot looks for `userData.isAnimal` on the intersected object. Raycasts intersect meshes, and the tag is set on the animal's enclosing group (components/AnimalsController.tsx:163). So no intersection carries the tag, and no shot ever calls an animal's hit handler. The shot methods return both strikes: the corrected one and the one line 68 computes. | A hit on an animal's body mesh whose parent group carries the tag (`Player.BodyShotExample`). | Strike the nearest hit whose object or nearest tagged ancestor is an animal, and call that animal's handler with the hit point. | not executed | Player.FindTargetAsWritten, Player.AsWrittenNeverStrikes, Player.BodyShotExample | Player.FindTarget, Player.Player.Shoot, Player.Player.ConsumeShootTrigger, Player.Player.Frame |
