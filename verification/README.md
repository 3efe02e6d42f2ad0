# Particle Fluid Portrait — a verified model of its core

The Particle Fluid Portrait is a single-page browser toy. Fifteen thousand
coloured particles first spell out a welcome line, revealed left to right
over 3.5 seconds. Once the camera is on, the particles are pulled toward
targets laid along the face mesh and the hand skeleton that the face and
hand trackers report. Hand gestures steer the page:

- a fist cycles the colour theme;
- a peace sign starts a short typed conversation in a small "gesture terminal";
- a raised middle finger starts a "punishment": the force switches to repel,
  and an apology demand is typed after seven seconds. Space ends it.

This project models the page's core logic (`main.js`) in Dafny:

| Module | What it models |
|---|---|
| `Config` | The shared values: the attract/repel mode, the themes, the particle budget. The golden-ratio fractional part used to spread points. A `RandomStream` class that stands in for `Math.random`. |
| `Geometry` | The canvas transform and the mapping of normalized, mirrored landmarks onto the canvas. |
| `Gestures` | The finger tests, fist detection, and the peace and middle-finger predicates. |
| `Targets` | The target buffer that `addJitteredPoint` and `addBonePoints` fill, and `buildTargets` for the face and the hands, with exact target counts. |
| `TextTargets` | Rasterised-text sampling, the sort by x, the tight horizontal bounds, the eased left-to-right reveal, and the `TextScene` object holding that state. |
| `Particles` | Seeding, re-theming and the per-frame update. It covers the idle drift, the split of particles between face and hands, the capped pull force, the long-range teleport and the size easing. `Swarm` is a class over a fixed particle array. |
| `Controller` | The gesture and keyboard controller as a state machine on values, with its consistency invariant and the traces behind the two findings below. |
| `GestureControl` | The same controller as the page keeps it: a `GestureMachine` class whose handler methods update its fields in place. Each method is proved equal to the corrected value-level transition. The event handlers (`MaybeSwitchTheme`, `OnHands`, `OnSpace` and the two timer callbacks) also keep the invariant; the helpers they call are only proved equal to their transitions, since a helper such as `TypeLines` or `ToggleMode` can break the invariant when called on its own. |

Math.random is modelled by an oracle. A `RandomStream` is a pair of infinite
streams: `units` gives values in [0, 1) and `headings` gives unit vectors,
which stand for `cos`/`sin` of a random angle. A counter `used` advances by
one for every draw. `Math.hypot` is an arbitrary nonnegative function
`Metric`. Its exact value never matters to the properties, except where a
lemma states the relation it needs.

## Model

| member | source | states |
|---|---|---|
| Config.Toggled | main.js:196-202 | the new mode always differs from the old one |
| Config.ToggledInvolution | main.js:196-202 | toggling twice restores the mode |
| Config.Direction | main.js:402 | the force sign is +1 or -1, and it is +1 exactly in attract mode |
| Config.DirectionFlipsOnToggle | main.js:402 | toggling the mode negates the force sign |
| Config.Frac | main.js:258 | `(i * phi) % 1` lies in [0, 1) and differs from its argument by an integer |
| Config.RandomStream.constructor | main.js:186 | a fresh stream starts at draw 0 of its oracle |
| Config.RandomStream.Next | main.js:186 | a `Math.random()` call returns the next unit in the stream and consumes one draw |
| Config.RandomStream.NextHeading | main.js:240-243 | a random angle's cos/sin is the next heading and consumes one draw |
| Geometry.SourceWidth | main.js:96 | a missing (zero) video width falls back to 640, so the width is always positive |
| Geometry.SourceHeight | main.js:97 | a missing video height falls back to 360, so the height is always positive |
| Geometry.UpdateCanvasTransform | main.js:92-113 | the transform keeps the canvas size and has a nonnegative scale; the scaled video is centred and covers the whole canvas on both axes |
| Geometry.MapCentre | main.js:115-120 | the video centre maps to the canvas centre |
| Geometry.MapMirrored | main.js:115-120 | the mapping mirrors horizontally: u and 1-u land symmetric about the middle, and x decreases as u grows |
| Geometry.MapCoversCanvas | main.js:92-120 | the video's corners map outside or onto the canvas corners, so no canvas area is uncovered |
| Gestures.FingerTestsMatchHypot | main.js:621-637 | the squared-distance finger tests agree with the page's hypot comparisons (tip > 1.18 pip for extended, tip < 1.05 pip for curled) |
| Gestures.ExtendedExcludesCurled | main.js:621-637 | no finger is both extended and curled |
| Gestures.CurledCount | main.js:216-224 | the curled-finger count never exceeds the number of fingers examined |
| Gestures.CurledCountIsCardinality | main.js:216-224 | the loop's counter equals the number of curled fingers among those examined |
| Gestures.IsFistCharacterized | main.js:211-226 | a hand with fewer than 21 landmarks is never a fist; otherwise it is a fist exactly when at least four of its five fingers are curled |
| Gestures.PeaceExcludesMiddleFinger | main.js:639-653 | no hand shows the peace sign and the middle finger at once |
| Gestures.PeaceIsNotFist | main.js:639-645 | a peace sign is never a fist, so it never switches the theme |
| Gestures.MiddleFingerFistOverlap | main.js:647-653 | a middle-finger hand is a fist exactly when its thumb is curled too |
| Gestures.ExampleFist | main.js:211-226 | a hand with all tips at the wrist is a fist |
| Gestures.ExamplePeace | main.js:639-645 | a hand with index and middle out and ring and pinky curled is a peace sign, not a middle finger and not a fist |
| Gestures.ExampleMiddleFinger | main.js:647-653 | a hand with only the middle finger out is a middle finger, not a peace sign and not a fist |
| Targets.JitteredWithinRadius | main.js:239-248 | a jittered point keeps its weight and size and lies within the radius of its anchor |
| Targets.BoneCount | main.js:254 | a bone gets at least 4 points, and `floor(length * density)` points once that is 4 or more |
| Targets.BonePointProjectsOntoBone | main.js:250-269 | the i-th bone point projects onto the bone at the golden-ratio fraction `frac(i * phi)` of its length; its weight is 1.2 and its size the given one |
| Targets.IsBoostedMatchesSets | main.js:276-283 | the index test is exactly membership in the nose, cheek or eye-socket boost set |
| Targets.CountBelow | main.js:279-288 | at most k of the first k landmark indices pass a test |
| Targets.CountBelowIsCardinality | main.js:279-288 | counting the indices below k that pass the test gives the size of the set of those indices |
| Targets.FaceTargetCountCharacterized | main.js:275-289 | a face of k landmarks yields 2k targets plus 3 per boosted landmark, between 2k and 5k, and none exactly when k is 0 |
| Targets.HandIndicesAsListed | main.js:292-330 | the chain-joint, palm-edge and anchor index functions give exactly the page's listed chains, palm connections and anchor points, and every index addresses one of the 21 hand landmarks |
| Targets.ChainTargetCountAtLeast | main.js:301-310 | a finger chain of i bones yields at least 4i targets |
| Targets.FingersTargetCountAtLeast | main.js:300-311 | c fingers yield at least 16c targets |
| Targets.PalmTargetCountAtLeast | main.js:313-323 | k palm connections yield at least 4k targets |
| Targets.HandTargetCountAtLeast | main.js:300-331 | one hand yields at least 112 targets: 80 from fingers, 20 from the palm, 12 from anchors |
| Targets.HandsTargetCountAtLeast | main.js:291-332 | n hands yield at least 112n targets, and none exactly when there are no hands |
| Targets.TargetBuffer.constructor | main.js:272-273 | a target list starts empty |
| Targets.TargetBuffer.AddJitteredPoint | main.js:239-248 | appends exactly one jittered target built from the next two draws; earlier targets are unchanged |
| Targets.TargetBuffer.AddBonePoints | main.js:250-269 | appends exactly BoneCount targets, the k-th being the k-th bone point with the k-th draw; the prefix is unchanged |
| Targets.TargetBuffer.AddFaceLandmark | main.js:279-288 | one landmark appends two plain targets (weight 1, size 1.1) and, exactly when it is boosted, three heavy ones (weight 2, size 1.8) after them; two draws per target, so 4 or 10 draws; earlier targets are unchanged |
| Targets.TargetBuffer.AddFaceTargets | main.js:275-289 | appends the face's exact target count, all plain or heavy face targets, with exactly three heavy ones per boosted landmark; two draws per target; earlier targets are unchanged |
| Targets.TargetBuffer.AddFingerBone | main.js:301-310 | one finger bone appends exactly its bone points, with width 10, 3 or 6 times the scale (palm-side, tip, otherwise) and size 1.9, 1.5 or 1.3 (tip, palm-side, otherwise), each from its own draw; all weigh 1.2; earlier targets are unchanged |
| Targets.TargetBuffer.AddFingerChain | main.js:300-311 | appends the chain's exact target count, all finger targets (weight 1.2, size 1.9, 1.5 or 1.3); earlier targets are unchanged |
| Targets.TargetBuffer.AddFingers | main.js:300-311 | the five chains append the fingers' exact target count, all finger targets (weight 1.2, size 1.9, 1.5 or 1.3) |
| Targets.TargetBuffer.AddPalmEdge | main.js:313-323 | one palm edge appends exactly its bone points, with width 12 times the scale, weight 1.2 and size 1.5, each from its own draw |
| Targets.TargetBuffer.AddPalm | main.js:313-323 | the five palm connections append the palm's exact target count, all of weight 1.2 and size 1.5 |
| Targets.TargetBuffer.AddAnchors | main.js:325-330 | appends exactly the anchor targets of the five fingertips and the wrist, in that order, and uses four draws per anchor point |
| Targets.TargetBuffer.AddAnchor | main.js:325-330 | one anchor point appends a target of radius 3.2·scale and weight 1.6, then one of radius 2.2·scale and weight 1.4, both of size 1.6 at the wrist and 2.2 elsewhere, from the next four draws |
| Targets.AnchorTargetsShape | main.js:325-330 | k anchor points give 2k targets: weight 1.6 then 1.4 for each point, both of size 2.2 for a fingertip and 1.6 for the wrist |
| Targets.BoneEndsClassified | main.js:304-308 | the page's isPalm test holds exactly for the first bone of a chain and the second bone of a non-thumb chain, and its isTip test exactly for the last bone |
| Targets.FaceRunHeavy | main.js:279-288 | a run of two plain face targets followed by heavy ones has all but the first two heavy |
| Targets.HeavyCountAppend | main.js:278-288 | the heavy count of two lists joined is the sum of their heavy counts |
| Targets.StylesWellFormed | main.js:239-330 | every face style and every hand style has positive weight and size |
| Targets.TargetBuffer.AddHandTargets | main.js:300-331 | appends the hand's exact target count, laid out as finger targets, then palm targets, then anchor targets, all in a hand style; earlier targets are unchanged |
| Targets.TargetBuffer.AddHandsTargets | main.js:291-332 | appends the exact count for all hands, all in a hand style, keeping the prefix |
| Targets.BuildTargets | main.js:271-336 | returns face and hand target lists of the exact characterised lengths; face targets are plain or heavy, with three heavy ones per boosted landmark; hand targets are finger, palm or anchor targets; all are well formed |
| TextTargets.FontSize | main.js:149 | the font size is 5% of the width rounded down, clamped to [26, 64]: 26 below the range, 64 above it |
| TextTargets.FivePercentFloor | main.js:149 | for a whole pixel width, `floor(width * 0.05)` is the integer quotient width / 20 that the font size uses |
| TextTargets.SampleStep | main.js:159 | the sampling step is at least 2, and `floor(fontSize / 10)` for fonts of 20 px or more |
| TextTargets.SampleStepRange | main.js:149-159 | for any canvas width the step is between 2 and 6 |
| TextTargets.PixelIndexInRange | main.js:164 | the alpha index of an in-canvas pixel lies inside the image buffer |
| TextTargets.RowSamplesMembership | main.js:163-175 | a row yields the target at x exactly when x is on the step grid, inside the canvas and inked (alpha > 10) |
| TextTargets.RowSamplesShape | main.js:163-175 | every sampled target of a row sits at some in-canvas column of that row |
| TextTargets.GridSamplesMembership | main.js:162-176 | the raster yields the target at (x, y) exactly when both coordinates are on the step grid, inside the canvas and inked |
| TextTargets.TightBoundsAppend | main.js:172-173 | widening the bounds to a new target's column keeps minX/maxX the exact extremes |
| TextTargets.SampleRow | main.js:163-175 | the inner loop appends exactly the row's samples and keeps the bounds tight |
| TextTargets.SampleText | main.js:158-176 | the nested loops produce exactly the grid samples, with minX/maxX their exact extremes (width and 0 when nothing is inked) |
| TextTargets.InsertByX | main.js:178 | inserting into an x-sorted list keeps it sorted and adds exactly one element |
| TextTargets.SortByX | main.js:178 | the sorted copy is ordered by x and a permutation of the targets |
| TextTargets.InsertByXAtX | main.js:178 | inserting into a sorted list puts the new target after the targets of the same x, so their order is kept |
| TextTargets.SortByXStable | main.js:178 | targets with the same x keep their original order in the sorted list, as in a stable sort |
| TextTargets.FirstBeyond | main.js:350 | `findIndex(t.x > revealX)`: -1 exactly when no target lies beyond, otherwise the first index beyond the front |
| TextTargets.RevealXRange | main.js:346-349 | the reveal front starts at minX, stays within [minX, maxX], and reaches maxX after 3.5 s |
| TextTargets.RevealXMonotone | main.js:346-349 | the reveal front never moves left as time passes |
| TextTargets.ActiveTextTargets | main.js:344-353 | nothing is active with the camera on or no text; otherwise the active targets are a nonempty prefix of the sorted list |
| TextTargets.ActiveAreLeftOfFront | main.js:349-352 | a sorted target is active exactly when it is the first one or lies at or left of the reveal front |
| TextTargets.ActiveGrowsOverTime | main.js:344-353 | the active prefix never shrinks as time passes |
| TextTargets.FullyRevealed | main.js:347-352 | after 3.5 s every text target is active |
| TextTargets.TextScene.constructor | main.js:31-40 | the text state starts empty at bounds (0, 0), with the start time set and typing not started |
| TextTargets.TextScene.StartTyping | main.js:480-482 | marks typing as started and changes nothing else |
| TextTargets.TextScene.Rebuild | main.js:140-181 | the targets are the grid samples of the alpha buffer; the sorted list is their sort by x; the bounds are tight; the clock is restarted |
| TextTargets.RebuiltSceneRevealsAll | main.js:140-181 | after a rebuild with ink, the bounds are ordered and enclose every target, and 3.5 s later the whole text is active |
| Particles.PaletteSlot | main.js:186 | `floor(r * n)` is a valid palette index and the slot that r falls into |
| Particles.PickColor | main.js:183-187 | the picked colour belongs to the palette |
| Particles.ThemePalettesNonEmpty | main.js:53-79 | there are five themes, each with a five-colour palette |
| Particles.SeededRanges | main.js:122-138 | a new particle starts in the middle fifth of the canvas, with speed components in [-0.2, 0.2), size in [0.6, 1.8), jitter in [0.2, 0.7) and a palette colour |
| Particles.DriftStaysOnCanvas | main.js:358-373 | after an idle step the particle is on the canvas, and its size, colour and jitter are unchanged |
| Particles.FaceCount | main.js:376-384 | the face share never exceeds the particle count; it is zero without face targets or with active text, and all particles when only the face has targets |
| Particles.FlooredShare | main.js:379-380 | flooring n times a share in [0.35, 0.6] lands between the floors at both ends of the band and, for n > 0, below n |
| Particles.FaceCountSplit | main.js:378-381 | with face and hands both present, the face gets floor(n · clamp(ratio, 0.35, 0.6)) particles: floor(0.35n) below the band, floor(0.6n) above it, floor(n · ratio) inside it; so always between 35% and 60%, and never all of them |
| Particles.Assign | main.js:386-398 | every particle's chosen target index is within the list it is drawn from |
| Particles.AssignPartition | main.js:376-398 | with the face particle count of the frame, text wins when active; otherwise the first faceCount particles cycle over the face and the rest over the hands, and the last-resort branch is never reached |
| Particles.AssignCoversText | main.js:388-389 | the k-th active text target goes to particle k |
| Particles.AssignCoversFace | main.js:390-391 | the k-th face target goes to particle k while k is below the face particle count |
| Particles.AssignCoversHands | main.js:392-394 | the k-th hand target goes to the k-th particle after the face particles |
| Particles.PullBounds | main.js:403 | the pull is positive, capped at 3.2, and never grows with distance |
| Particles.ForceScaled | main.js:399-405 | the force is the offset to the target scaled by pull/dist and the mode's sign |
| Particles.ForceDirection | main.js:402-405 | attract and repel forces are opposite; attract points toward the target and repel away from it |
| Particles.ForceCapped | main.js:399-405 | the velocity kick from the pull has length at most 3.2 |
| Particles.SeekProperties | main.js:399-421 | size eases 8% toward the target size and colour and jitter are kept; a far particle that wins the 1% draw lands within 20 px of its target at rest |
| Particles.Swarm.constructor | main.js:17-18 | the particle array holds 15000 particles |
| Particles.Swarm.CreateParticles | main.js:122-138 | every particle is seeded from its own seven consecutive draws, and 7 draws are used per particle |
| Particles.Swarm.Retheme | main.js:189-194 | every particle gets a colour from the new palette with its own draw; position, velocity, size and jitter are kept |
| Particles.Swarm.Step | main.js:355-423 | with the face particle count computed once for the frame, every particle becomes its one-frame successor; in the idle case every particle ends on the canvas |
| Particles.SeedParticle | main.js:128-136 | one seeded particle from exactly seven draws |
| Particles.StepOne | main.js:357-423 | the loop body agrees with the frame function, keeps colour and jitter, and keeps an idle particle on the canvas |
| Particles.DriftOne | main.js:358-372 | the idle loop body agrees with the drift function |
| Particles.SeekOne | main.js:399-421 | the tracking loop body agrees with the seek function |
| Particles.UpdateParticles | main.js:338-429 | the particles take one frame toward the revealed text, face or hand targets; the text scene is untouched except that typing starts 3.5 s after the text appeared, when the page is not idle and the camera is off |
| Controller.ToggleModeInvolution | main.js:196-202 | toggleMode flips only the mode and undoes itself |
| Controller.ThemeSwitchCharacterized | main.js:228-237 | the theme changes exactly when 1400 ms have passed and some hand is a fist; it then advances by one modulo the theme count and stamps the time, so switches are at least 1400 ms apart and the index stays in range |
| Controller.MiddlePreemptsPeace | main.js:655-668 | a middle finger past its cooldown triggers the punishment and never the peace conversation |
| Controller.PunishmentIgnoresGestures | main.js:655-668 | during the punishment, handleGestures changes nothing: peace signs are ignored, and a new middle finger is stopped by the trigger's own guard |
| Controller.PeaceTriggerCharacterized | main.js:655-668 | the peace conversation starts exactly when no middle finger is eligible, no punishment is on, and a peace sign is past its cooldown; the cooldown is then 6000 ms |
| Controller.TriggerMiddleEffect | main.js:590-608 | starting the punishment sets repel, a 9000 ms cooldown, an apology due in 7000 ms and a cleared terminal, and leaves the theme and peace cooldown alone; it does nothing during a punishment |
| Controller.EndMiddleEffect | main.js:610-619 | ending the punishment restores attract, cancels the apology and clears the terminal; it does nothing when no punishment is on |
| Controller.SpaceDispatch | main.js:816-823 | Space ends a punishment (leaving attract) or otherwise toggles the mode, and pressing it twice outside a punishment restores the state |
| Controller.PunishmentRoundTrip | main.js:590-619 | a punishment followed by Space leaves attract mode, no apology pending, a hidden terminal and the 9000 ms cooldown |
| Controller.InitialConsistent | main.js:19-50 | the page's initial variables satisfy the controller invariant |
| Controller.TypeLinesKeepsConsistent | main.js:525-531 | typeGestureLines keeps the invariant while no apology is pending |
| Controller.HandleGesturesKeepsConsistent | main.js:655-668 | handleGestures keeps the invariant (theme in range, punishment implies repel, a pending apology implies a punishment and an idle gesture timer, busy exactly while a message is typing, which the screen shows) |
| Controller.GestureTimerKeepsConsistent | main.js:537-541 | the gesture timer's callbacks keep the invariant |
| Controller.StepKeepsConsistent | main.js:727-733 | every event keeps the invariant |
| Controller.RunKeepsConsistent | main.js:727-733 | every sequence of events from a consistent state keeps the invariant |
| Controller.StepKeepsModeConsistent | main.js:727-733 | every event, in the page as written or corrected, keeps the theme index in range and a punishment in repel mode |
| Controller.RunKeepsModeConsistent | main.js:727-733 | every sequence of events, in the page as written or corrected, keeps the theme index in range and a punishment in repel mode |
| Controller.ApologyIsTyped | main.js:600-607 | when the apology falls due it is shown and typed, with nothing after it |
| Controller.TerminalNeverStuck | main.js:537-541 | a busy terminal is always freed by the next gesture-timer callback |
| Controller.ExampleHandsQualify | main.js:639-653 | the example peace hand and middle-finger hand each show exactly one gesture and no fist |
| Controller.PeaceStep | main.js:655-668 | a peace-only hand result starts the conversation unless a punishment is on or the cooldown is running |
| Controller.MiddleStep | main.js:655-668 | a middle-finger-only hand result past its cooldown starts the punishment |
| Controller.ApologySwallowedAsWritten | main.js:518-523 | with the page's clearGestureTerminal, a peace sign shortly before a middle finger makes the apology never appear: the punishment is on and the apology is marked shown, but the terminal ends hidden and idle |
| Controller.ApologyTypedWhenCorrected | main.js:600-607 | with the timer cancelled on clear, the same events end with the apology on screen |
| Controller.PeaceFreezesTerminalAsWritten | main.js:566-570 | with the page's triggerPeaceGesture, a peace sign while the terminal is typing leaves it busy for good with no timer pending |
| Controller.PeaceRestartsWhenCorrected | main.js:566-588 | with the busy terminal left alone, the same events end with a new conversation being typed |
| Controller.FrozenTerminalStaysFrozen | main.js:525-529 | a busy terminal with no timer is never freed: timer callbacks and further peace signs leave it busy |
| GestureControl.GestureMachine.constructor | main.js:19-50 | the handler state starts at the page's initial values, which are consistent |
| GestureControl.GestureMachine.ToggleMode | main.js:196-202 | the in-place toggle equals the value transition |
| GestureControl.GestureMachine.MaybeSwitchTheme | main.js:228-237 | the in-place theme switch equals the value transition and keeps the invariant; when the theme changes, every particle is recoloured from the new palette, and otherwise no particle and no draw is touched |
| GestureControl.GestureMachine.ClearTerminal | main.js:518-523 | clearing empties and frees the terminal and cancels its timer |
| GestureControl.GestureMachine.TypeLines | main.js:525-557 | the in-place typeGestureLines equals the value transition |
| GestureControl.GestureMachine.TriggerPeace | main.js:566-588 | the in-place peace trigger equals the corrected transition |
| GestureControl.GestureMachine.TriggerMiddle | main.js:590-608 | the in-place punishment trigger equals the corrected transition |
| GestureControl.GestureMachine.EndMiddle | main.js:610-619 | the in-place punishment end equals the corrected transition |
| GestureControl.GestureMachine.HandleGestures | main.js:655-668 | the in-place handleGestures equals the corrected transition |
| GestureControl.GestureMachine.OnHands | main.js:727-733 | a hand result runs maybeSwitchTheme then handleGestures, equals one controller step, and keeps the invariant |
| GestureControl.GestureMachine.OnSpace | main.js:816-823 | Space equals one controller step and keeps the invariant |
| GestureControl.GestureMachine.ApologyTimerFires | main.js:600-607 | the apology callback equals one controller step, keeps the invariant, and shows the apology once it is due |
| GestureControl.GestureMachine.GestureTimerFires | main.js:537-587 | the gesture-timer callback equals one controller step and keeps the invariant; afterwards the terminal is busy only if a delayed line started typing |

## Left out

- Rendering is not part of this model. That covers the DOM and canvas drawing, trail fills, `drawOverlay`, the camera preview and its `V` toggle, the status, mode and shortcut lines, and the `resizeCanvas` device-pixel-ratio set-up. None of it feeds back into the state modelled here.
- The MediaPipe face and hand trackers, the camera start-up and the frame loop (`requestAnimationFrame`, the manual loop) are not modelled. Their results enter as the landmark lists given to `BuildTargets` and `Step`.
- Text rendering (`fillText`) and `getImageData` are not modelled. The model takes the RGBA buffer as an input, of the length `getImageData` gives (four bytes per pixel).
- `startTyping` is reduced to its `typingStarted` guard. The character-by-character typing of the welcome terminal and its UTC timestamps are DOM and clock work.
- `typeGestureLines` types a message character by character. Each message is abstracted to one pending `Typing` timer that fires when the last character is out. Intermediate characters and their random delays are not modelled.
- Which timer fires when is left to the environment. `GestureTimerDue` and `ApologyTimerDue` carry the time they fire at; a due time is respected, but the length of the typing of a message is left open.
- The page reads `performance.now()` separately in `maybeSwitchTheme` and `handleGestures`. One hand result is modelled with a single `now`.
- Numbers are exact reals, not IEEE doubles. `Math.hypot` is any nonnegative function, and `cos`/`sin` of a random angle are any unit vector.
- `Math.random` is drawn from per-particle `StepDraws` records in `Swarm.Step`, not from one global stream. The page skips the teleport draw when `dist <= 240` (short-circuit); the model always has a `chance` value but uses it only when `dist > 240`. So the model does not capture the exact interleaving of draws between particles.
- Particles.Swarm.Step: states each particle's new value and the idle bound, but not the draw count, which depends on the short-circuit above.
- The comment above `updateCanvasTransform` speaks of letterboxing. The code picks the larger scale, so the video covers the canvas and overflows on one axis. The model follows the code (`CoversCentred`, `MapCoversCanvas`).
- Targets.TargetBuffer.AddFaceTargets: states the count, styles, heavy count and draws, but not each target's position. Positions are exact one level down, in `AddFaceLandmark`'s calls to `AddJitteredPoint`.
- Targets.TargetBuffer.AddFingerChain: states the count and the finger style, but not each target's position, which `AddFingerBone` states exactly.
- Targets.TargetBuffer.AddFingers: states the count and the finger style, but not positions or draws.
- Targets.TargetBuffer.AddPalm: states the count and the palm style, but not positions, which `AddPalmEdge` states exactly.
- Targets.TargetBuffer.AddHandTargets: states the count and which span holds finger, palm and anchor targets, but not positions or the number of draws.
- Targets.TargetBuffer.AddHandsTargets: states the count and the hand style, but not positions or draws.
- Targets.BuildTargets: states the lengths, the styles and the heavy count, but not positions, which are stated at the per-bone, per-edge and per-anchor level.
- Targets.BuildTargets, Gestures.IsPeaceGesture, Gestures.IsMiddleFingerGesture and the controller transitions require every hand to have at least 21 landmarks (`HandsWellFormed`, `HandLandmarkCount`). The page has no length guard there (main.js:639-653 and main.js:300-330 index up to landmark 20). The hand tracker always reports 21 landmarks per hand, and `buildTargets` would fail on a shorter one.
- Particles.UpdateParticles: takes one `now` for both `performance.now()` reads in a frame, the reveal front (main.js:346) and the typing start (main.js:426).
- The early returns on a missing `gestureTerminal` or `terminalEl` element are not modelled. The elements are assumed present.

## Findings

| source | as written | input that shows it | evidently intended | confidence | as-written member | corrected member |
|---|---|---|---|---|---|---|
| main.js:518-523 | `clearGestureTerminal` hides and frees the terminal but leaves `gestureTimer` running, so a pending peace follow-up still fires during the punishment. It can occupy the terminal when the apology falls due; the apology is then dropped by the busy guard, yet `apologyShown` is set. | peace sign at t=10000, its line done at 10800; middle finger at 11000; the bored remark starts at 12800 and is still typing at 18000 when the apology falls due; remark done at 18100, cleared at 19000 | a cleared terminal cancels its pending timer, so the apology demand is typed at t=18000 | medium, not executed | Controller.ApologySwallowedAsWritten | Controller.ApologyTypedWhenCorrected |
| main.js:566-570 | `triggerPeaceGesture` calls `clearTimeout(gestureTimer)` before `typeGestureLines`, which returns at once when the terminal is busy. A peace sign during typing therefore kills the typing timer while `gestureTyping` stays true, and the terminal types nothing more until a middle-finger punishment clears it (main.js:599 calls `clearGestureTerminal`, which frees it at main.js:522). | peace sign at t=10000 (line done at 10800); bored remark starts at 12800; second peace sign at 16500, mid-remark; later timers at 18100 and 19000 find nothing; a third peace sign at 23000 is ignored | a busy terminal is left alone, so it is always freed and a later peace sign starts a new conversation | high, not executed | Controller.PeaceFreezesTerminalAsWritten | Controller.PeaceRestartsWhenCorrected |
