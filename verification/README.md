# Rule-based hand-gesture classifier

This project models the gesture classifier of a real-time hand-gesture
recognition web page. The classifier reads the 21 hand landmarks that an
external hand tracker reports for one video frame. Each landmark is a point
`{x, y, z}`: x and y are normalized to the frame, and y grows downwards. It
returns one gesture label, or none, together with a confidence.

The classifier runs as a pipeline:

- **Call test** (`Gestures.IsCall`). It runs on the raw landmarks first. When
  it holds, the result is `Call` with confidence 0.95 and nothing else is
  evaluated.
- **Feature extractor** (`Features.Extract`). It computes four "finger
  extended" flags (a tip more than 0.15 above its knuckle), the index-middle
  tip distance, the angle between the index and middle finger directions,
  and several features that no predicate ever reads: the thumb-index
  distance, the number of extended fingers, the curl magnitudes, the curl
  flags and the all-curled flag.
- **Predicate evaluator** (`Gestures.Evaluate`). It computes ten independent
  predicates.
- **Priority resolver** (`Resolver.Resolve`). A fixed if/else chain picks the
  first predicate that holds and attaches that label's constant confidence:
  0.9 for `Like`, 0.95 for every other label.

The labels are the ones the application displays. The OK-sign predicate is
shown as `Super` and the gun predicate as `Happy`. The model keeps that
pairing.

Numerics:

- Coordinates are Dafny `real`s.
- Every `sqrt(d) > c` and `sqrt(d) < c` test becomes `d > c*c` and
  `d < c*c`. `Landmarks.RootComparison` proves the two forms agree for any
  non-negative root, and `Gestures.CallSquaredForm`,
  `Gestures.VictorySquaredForm` and `Gestures.CurlSquaredForm` apply it to
  each test that uses a square root.
- `Math.atan2` and `Math.PI` become the fields of a `Features.Trig`
  parameter. Their values are left unconstrained, so every property proved
  here holds for any atan2 and pi. They enter only the victory angle test
  (`src/pages/Recognition.tsx:232-234` and `:264`).

Facts about the code that the model keeps:

- The code has no separate validation step for malformed input. A hand with
  fewer than 21 landmarks throws before any gesture test runs. The canvas is
  always mounted and gets its drawing context on mount
  (`src/pages/Recognition.tsx:80-85`), so the landmarks are drawn first
  (`src/pages/Recognition.tsx:196-199`), and the connection loop reads `.x`
  of a missing entry (`src/pages/Recognition.tsx:124-125`). Only without a
  drawing context would the throw come from the Call test reading `.y` of a
  missing entry (`src/pages/Recognition.tsx:142-143`). Either way the catch
  handler at `src/pages/Recognition.tsx:376-381` clears the gesture, sets
  confidence 0 and shows an error text. The model reproduces this as
  `Reading(None, 0.0, faulted := true)` and accepts hands of any length.
- The gun test compares the thumb tip with landmark 2
  (`src/pages/Recognition.tsx:277`). The Call test compares it with
  landmark 3 (`src/pages/Recognition.tsx:142`). In the tracker's index
  convention landmark 2 is the thumb MCP joint and landmark 3 the thumb IP
  joint, and the model's constants are named that way.
- The curl magnitudes and curl flags are computed
  (`src/pages/Recognition.tsx:247-256`) but no predicate reads them, and the
  same holds for the extended-finger count and the thumb-index distance
  (`Gestures.UnusedFeaturesIgnored`).

## Model

| member | source | states |
|---|---|---|
| Landmarks.RootComparison | src/pages/Recognition.tsx:150-159 | for a non-negative square root s of d and a threshold c >= 0, `s > c` iff `d > c*c` and `s < c` iff `d < c*c`, which justifies the squared thresholds |
| Landmarks.SqDistXY | src/pages/Recognition.tsx:221-229 | the planar squared distance between two landmarks is non-negative |
| Landmarks.SqDistXYPlanar | src/pages/Recognition.tsx:221-229 | the planar distance reads only x and y, so depth never affects it |
| Features.CountTrue | src/pages/Recognition.tsx:244 | the count of set flags is at most the number of flags; it is 0 iff no flag is set and the full length iff all are set |
| Features.CountTrueIsMultiplicity | src/pages/Recognition.tsx:244 | the count is exactly the number of `true` entries, the multiplicity of `true` in the flags, which is the length of `filter(Boolean)` |
| Features.Extended | src/pages/Recognition.tsx:237-242 | a finger counts as extended only if its tip lies above its knuckle |
| Features.DirectionDependsOnOffset | src/pages/Recognition.tsx:232-233 | a finger's direction depends only on the offset from its knuckle to its tip, not on where the finger sits in the frame |
| Features.Extract | src/pages/Recognition.tsx:211-256 | the extended-finger count is exactly the number of extended fingers among index, middle, ring and pinky, so it is at most 4, 0 iff none is extended and 4 iff all are; distances and the angle are non-negative; there are four non-negative curl magnitudes |
| Features.ExtractCountsExtended | src/pages/Recognition.tsx:244 | the snapshot's extended-finger count is the multiplicity of `true` among the four extension flags |
| Landmarks.FarApartOnAnAxis | src/pages/Recognition.tsx:150-153 | two points more than c times the square root of 2 apart are more than c apart along x or along y |
| Gestures.IsCall | src/pages/Recognition.tsx:132-160 | a Call pose has the thumb tip above landmark 3 and the pinky tip above landmark 19, and its thumb and pinky tips are more than 0.2 apart along x or along y |
| Gestures.CallSquaredForm | src/pages/Recognition.tsx:132-160 | the squared Call test agrees with the test written with the square-rooted thumb-pinky distance |
| Gestures.CallSpreadIsStrict | src/pages/Recognition.tsx:150-159 | with the four joint conditions held, Call fires iff the thumb-pinky distance exceeds 0.3, so a distance of exactly 0.3 does not fire |
| Gestures.VictorySquaredForm | src/pages/Recognition.tsx:226-229 | the squared victory test agrees with the test written with the square-rooted index-middle distance below 0.15 |
| Gestures.IsVictory | src/pages/Recognition.tsx:258-264 | the victory test can hold for a non-negative finger angle only when pi is positive |
| Classifier.VictoryShape | src/pages/Recognition.tsx:258-264 | a victory verdict on a hand needs exactly two extended fingers and a positive pi |
| Gestures.CurlSquaredForm | src/pages/Recognition.tsx:247-255 | a curl below 0.12 is the same as a squared curl below 0.0144 |
| Gestures.Evaluate | src/pages/Recognition.tsx:258-326 | Victory and OK-sign never both hold, thumbs-up and thumbs-down never both hold, Hello and Friends never both hold; on the hand's own index flag, pointing is exactly "only the index finger extended", so every gun pose is a pointing pose |
| Gestures.UnusedFeaturesIgnored | src/pages/Recognition.tsx:218-256 | changing the extended-finger count, the curl magnitudes, the curl flags, all-curled or the thumb-index distance leaves every verdict unchanged |
| Resolver.Resolve | src/pages/Recognition.tsx:329-362 | the chain never faults; it returns no label iff no verdict holds, and then confidence 0; a returned label's verdict holds and its confidence is that label's constant |
| Resolver.NameIdentifiesLabel | src/pages/Recognition.tsx:332-361 | the displayed names are distinct: two labels have the same name iff they are the same label |
| Resolver.ConfidenceOf | src/pages/Recognition.tsx:329-362 | every label's confidence lies in (0, 1]; it is 0.9 exactly for Like and 0.95 for every other label |
| Resolver.Rank | src/pages/Recognition.tsx:329-362 | every label has a position in the priority order, and the label at that position is the label itself |
| Resolver.FirstFired | src/pages/Recognition.tsx:329-362 | reference resolver: a chosen label fires, and nothing is chosen iff no label from the start position on fires |
| Resolver.FirstFiredIsEarliest | src/pages/Recognition.tsx:329-362 | the reference resolver returns l iff some occurrence of l fires and no earlier entry fires |
| Resolver.ResolveIsFirstFired | src/pages/Recognition.tsx:329-362 | the code's if/else chain returns the same label as the reference resolver over Call, Victory, Super, Happy, Pointing, Hello, Like, Dislike, Friends, I Love You, Angry, with Call not firing |
| Classifier.ClassifyHand | src/pages/Recognition.tsx:202-366 | confidence is in [0,1]; it is 0 iff no label is chosen, 0.9 for Like and 0.95 for any other label; when Call holds, the result is (Call, 0.95) whatever the other predicates say; a hand with fewer than 21 landmarks yields no gesture, confidence 0 and the fault flag |
| Classifier.Classify | src/pages/Recognition.tsx:190-191 | a missing or empty tracker result yields no gesture with confidence 0 and no fault |
| Classifier.OnlyFirstHandCounts | src/pages/Recognition.tsx:190-191 | only the first reported hand is classified |
| Classifier.ClassifyIsPriorityChoice | src/pages/Recognition.tsx:203-209 | testing Call first and returning early gives the same label as putting Call at the head of the priority order |
| Classifier.ClassifyPicksFirstFiring | src/pages/Recognition.tsx:329-362 | label l is returned iff its predicate holds and every higher-priority predicate fails |
| Classifier.NothingIffNoneFires | src/pages/Recognition.tsx:329-330 | no gesture is returned iff no predicate holds |
| Classifier.GunShadowsPointing | src/pages/Recognition.tsx:273-343 | a gun pose always satisfies the pointing predicate, yet is never reported as Pointing; unless it also passes the Call test, it is reported as (Happy, 0.95) |
| Poses.GunAndCallPoseIsCall | src/pages/Recognition.tsx:203-209 | a pose that passes both the gun test and the Call test is reported as (Call, 0.95), so the Call exception above is real |
| Classifier.PointingMeansIndexOnly | src/pages/Recognition.tsx:338-343 | Pointing is reported only when the index finger alone is extended and the gun test fails |
| Classifier.DecidedByVerdicts | src/pages/Recognition.tsx:204-362 | two hands with the same Call verdict and the same ten verdicts get the same result |
| Classifier.SameReadSameVerdicts | src/pages/Recognition.tsx:212-241 | hands that agree on every landmark the classifier reads have the same verdicts |
| Classifier.UnreadLandmarksIgnored | src/pages/Recognition.tsx:134-147 | landmarks 1, 6, 7, 10, 14 and 18, and any landmark past index 20, never affect the result |
| Classifier.PlanarCall | src/pages/Recognition.tsx:142-153 | the Call test ignores depth |
| Classifier.PlanarSnapshot | src/pages/Recognition.tsx:221-256 | the feature snapshot ignores depth |
| Classifier.DirectionPlanar | src/pages/Recognition.tsx:232-233 | a finger direction ignores depth |
| Classifier.PlanarVerdicts | src/pages/Recognition.tsx:266-271 | hands that agree in x and y have the same verdicts apart from the OK sign, and the same verdicts outright when the thumb and index tips also agree in depth |
| Classifier.DepthReadOnlyAtThumbAndIndexTips | src/pages/Recognition.tsx:270 | depth is read only at the thumb tip and the index tip |
| Classifier.DepthOnlyDecidesSuper | src/pages/Recognition.tsx:266-271 | depth influences the result only through the OK-sign (Super) predicate |
| Poses.VictoryPoseIsVictory | src/pages/Recognition.tsx:258-264 | index and middle tips 0.2 above their knuckles and 0.05 apart, with ring and pinky down, give (Victory, 0.95) for any atan2 when pi is positive |
| Poses.ThumbsUpPoseIsLike | src/pages/Recognition.tsx:292-296 | folded fingers with the thumb 0.2 above the wrist give (Like, 0.9) |
| Poses.CallBeatsVictory | src/pages/Recognition.tsx:203-209 | on a pose where Call and Victory both hold, the result is (Call, 0.95) |
| Poses.CallBoundary | src/pages/Recognition.tsx:150-159 | a thumb-pinky spread of exactly 0.3 does not give Call; a spread of 0.30001 gives (Call, 0.95) |
| Poses.OkSignPoseIsSuper | src/pages/Recognition.tsx:266-271 | thumb and index tips together with middle, ring and pinky raised give (Super, 0.95) |
| Poses.GunPoseIsHappy | src/pages/Recognition.tsx:273-277 | only the index raised, with the thumb tip level with landmark 2, gives (Happy, 0.95) |
| Poses.PointingPoseIsPointing | src/pages/Recognition.tsx:279-283 | only the index raised, with the thumb tip 0.2 above landmark 2, gives (Pointing, 0.95), so Pointing is reachable despite the gun test before it |
| Poses.HelloPoseIsHello | src/pages/Recognition.tsx:285-290 | all four fingers raised to the same height give (Hello, 0.95) |
| Poses.ThumbsDownPoseIsDislike | src/pages/Recognition.tsx:298-302 | folded fingers with the thumb 0.2 below the wrist give (Dislike, 0.95) |
| Poses.FriendsPoseIsFriends | src/pages/Recognition.tsx:319-326 | index, middle and ring raised, pinky folded and thumb 0.15 above the wrist give (Friends, 0.95) |
| Poses.ILoveYouPoseIsILoveYou | src/pages/Recognition.tsx:310-317 | index and pinky raised 0.2 apart with middle and ring folded give (I Love You, 0.95) |
| Poses.AngryPoseIsAngry | src/pages/Recognition.tsx:304-308 | only the pinky raised, thumb level with the wrist, gives (Angry, 0.95) |

## Left out

- Model loading through TensorFlow.js and MediaPipe (`initializeModels`): asynchronous foreign libraries and network fetches.
- Canvas drawing (`drawHandLandmarks`) and canvas resizing: rendering only.
- The frame loop: the video-readiness check, the 100 ms throttle and the `requestAnimationFrame` scheduling. These are timing and browser plumbing. Each call of the model is one frame that got past them.
- React state: the model returns the pair that the code passes to `setCurrentGesture` and `setConfidence`. The error text set by the catch handler is reduced to the `faulted` flag.
- The `if (landmarks)` guard inside the detection branch. A tracker entry is always an array there, so the guard always passes.
- Camera acquisition and its error messages, the JSX markup, and the Home, About, Gallery and Layout pages: device I/O and static UI.
- IEEE-754 behaviour of JavaScript numbers: rounding of the thresholds, NaN and infinities. The model computes in exact reals, so results at a float rounding boundary may differ from the browser.
- The real values of `Math.atan2`, `Math.sqrt` and `Math.PI`. `atan2` and `pi` are parameters, and square roots appear only through the squared-comparison equivalence.
- Hands whose entries are not landmark records, for example `undefined` elements in a list of 21 or more. The model's hand type admits only landmarks.
