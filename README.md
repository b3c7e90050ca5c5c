# Vehicle line-crossing counter — a Dafny model

This project models the counting core of a vehicle counter built on an object
detector and a multi-object tracker. Every frame, the tracker reports a batch
of tracked boxes. The counter keeps, per track, the side of a counting line
on which the track was last seen. When a track's side changes sign, the
counter records an IN or an OUT event for the track's class and moves that
class's inventory by +1 or -1. The model also covers the two pure helpers
around it:

- the detector's class-name unification (which model classes count as cars
  and motorcycles, with `motorbike` unified to `motorcycle`);
- the sanitiser for report file names, with the integer and boolean defaults
  of the application configuration.

Files:

- `wrappers.dfy` — `Option` and `Result`.
- `counter.dfy` (module `Counter`) has two halves:
  - a value-level specification of the counter state (`Initial`, `Observe`,
    `ObserveAll`, `AfterUpdate`, `AfterReset`) and the lemmas about it;
  - the class `LineCrossingCounterByClass`, whose four map fields are updated
    in place by the constructor, `Reset`, `ProcessObservation`, `PurgeStale`
    and `Update`. Each method is proved equal to the specification function.
- `config.dfy` (module `Config`) — `SanitizeFilename`, Python's `str.strip`
  over the full Unicode whitespace set it uses, and `DefaultAppConfig`.
- `detector.dfy` (module `Detector`):
  - the value-level unification `ClassMappingOf`;
  - the method `BuildClassMapping`, which mirrors the constructor's loop over
    the (id, name) pairs and is proved equal to `ClassMappingOf`.

The counter's invariant `CounterInv` says three things:

- for every label (configured or not), the inventory equals the baseline
  plus IN minus OUT;
- all counts are non-negative;
- every configured label is present in the three maps.

The constructor establishes it; `Reset`, `PurgeStale` and `Update` require
and keep it. `ProcessObservation` is proved equal to `Observe`, and
`ObservePreservesInv` shows that `Observe` keeps the invariant.

The observations of one batch are processed in order (src/counter.py:105-124).
A track id that occurs twice in one batch therefore compares its second
reading with the side stored by its first. With the readings left then right
of the line, the batch counts one IN; with right then left, one OUT.
`SameTrackTwiceInOneBatch` states both cases.

## Model

| member | source | states |
|---|---|---|
| Counter.SideOfLine | src/counter.py:22-35 | definition, no contract: the 2D cross product of p - a and b - a |
| Counter.EndpointsOnLine | src/counter.py:22-35 | both endpoints of the line have side value 0 |
| Counter.SideZeroIffOnLine | src/counter.py:22-35 | for a non-degenerate line, the side value is 0 exactly for the points of the infinite line through a and b, not only the segment |
| Counter.ReflectionNegatesSide | src/counter.py:22-35 | mirroring a point through a point of the line negates its side value, so the two sides get opposite signs |
| Counter.SwapEndpointsNegatesSide | src/counter.py:22-35 | swapping the endpoints negates every side value, so it exchanges the two sides |
| Counter.Centroid | src/counter.py:113-115 | the centroid is the floor of the midpoint in each coordinate, and lies inside the box when its corners are ordered |
| Counter.LabelOf | src/counter.py:136 | definition, no contract: the class name, or "unknown" when the batch has none |
| Counter.TrackedIds | src/counter.py:103-110 | definition, no contract: the set of non-null tracker ids of a batch, as `current_ids` collects them |
| Counter.Initial | src/counter.py:70-76 | definition, no contract: every configured label at IN = OUT = 0 and its initial inventory, empty history; its properties are in `InitialTallies` |
| Counter.Tally | src/counter.py:143-149 | definition, no contract: one IN (inventory + 1) or one OUT (inventory - 1) for a label, get-or-zero |
| Counter.Observe | src/counter.py:106-149 | definition, no contract: one iteration of the update loop; its properties are in `ObserveTallies`, `ObserveHistory` and `ObservePreservesInv` |
| Counter.ObserveAll | src/counter.py:105-149 | definition, no contract: the loop over a batch, first observation to last |
| Counter.Purge | src/counter.py:151-154 | definition, no contract: the history restricted to the batch's ids |
| Counter.AfterUpdate | src/counter.py:86-154 | definition, no contract: `update` as a value; an empty batch returns the state unchanged, otherwise the loop and then the purge |
| Counter.ResetTo | src/counter.py:80-83 | definition, no contract: the labels assigned one after another; its properties are in `ResetToEffect` |
| Counter.ResetLabels | src/counter.py:78-83 | definition, no contract: the reset loop over the configured labels |
| Counter.AfterReset | src/counter.py:78-84 | definition, no contract: `reset` as a value, the loop and then the cleared history; its properties are in `ResetTallies` |
| Counter.ObserveTallies | src/counter.py:120-149 | one observation changes the tallies only when its track has a stored side whose sign is opposite to the current side. A first sighting, a stored 0 or a reading of 0 never counts. A crossing is IN exactly when the stored side was negative, flipped by the inversion flag. It moves IN or OUT of its class by one and the inventory by +1 or -1, and leaves every other class unchanged |
| Counter.ObserveHistory | src/counter.py:120-124 | a non-zero reading replaces the stored side; a zero reading keeps the stored side (0 when there was none); the observation's track id becomes a key |
| Counter.ObservePreservesInv | src/counter.py:136-149 | one observation keeps the counter invariant: inventory = baseline + IN - OUT for every class, non-negative counts, configured classes present |
| Counter.ObserveAllKeys | src/counter.py:103-124 | processing a batch adds exactly the batch's tracked ids to the history keys |
| Counter.ObserveAllHistory | src/counter.py:105-124 | after a batch, a track's stored side is its last non-zero reading in the batch; with no such reading, it is unchanged |
| Counter.HistoryNeverCleared | src/counter.py:123-124 | a track with a non-zero stored side, or with a non-zero reading in the batch, still has a non-zero stored side after the batch's loop: a zero reading never erases a known side |
| Counter.ObserveAllPreservesInv | src/counter.py:105-149 | processing a batch keeps the counter invariant |
| Counter.ObserveAllMonotone | src/counter.py:143-149 | IN and OUT counts never decrease |
| Counter.UpdatePreservesInv | src/counter.py:86-154 | a whole update keeps the counter invariant |
| Counter.EmptyUpdateIsNoOp | src/counter.py:94-97 | an empty batch changes neither the tallies nor the history |
| Counter.UpdateHistoryKeys | src/counter.py:151-154 | after a non-empty batch, the history keys are exactly the batch's tracked ids |
| Counter.UpdateHistory | src/counter.py:121-154 | after an update, a track of the batch stores its last non-zero reading, or its old stored side when it had none |
| Counter.ReappearanceIsFirstSighting | src/counter.py:126-154 | a track missing from a non-empty batch is forgotten, so its next observation cannot count as a crossing |
| Counter.InitialTallies | src/counter.py:70-76 | after construction, every configured label has IN = OUT = 0 and inventory = its initial value (0 when the initial-inventory map lacks it), the history is empty and the invariant holds |
| Counter.ResetToEffect | src/counter.py:78-83 | setting the labels one by one leaves each listed label at its value and every other key as it was |
| Counter.ResetLabelsEffect | src/counter.py:78-83 | the reset loop zeroes IN/OUT of the configured labels, restores their inventory, and leaves other labels and the history alone |
| Counter.ResetTallies | src/counter.py:78-84 | reset keeps the invariant, clears the history, restores the configured labels and leaves ad-hoc labels' tallies as they were |
| Counter.ResetIdempotent | src/counter.py:78-84 | resetting twice equals resetting once |
| Counter.ResetOfInitial | src/counter.py:70-84 | resetting a fresh counter changes nothing |
| Counter.FirstObservationAfterReset | src/counter.py:121-128 | after a reset, no observation can be a crossing and none changes the tallies |
| Counter.CrossingScenario | tests/test_counter.py:41-71 | with the default labels, a track moving from (15,15) to (85,15) across x = 50 is one IN for its class, or one OUT with inventory -1 when inverted; the class may be any name, configured or not |
| Counter.SameTrackTwiceInOneBatch | src/counter.py:105-149 | a track read left then right of the line in one batch counts one IN; read right then left, one OUT |
| Counter.PurgeScenario | tests/test_counter.py:74-89 | a track absent from the next batch is removed from the history and the new track is added |
| Counter.LineCrossingCounterByClass.constructor | src/counter.py:56-76 | the parameters default to the labels car and motorcycle, no inversion and an empty initial inventory; the maps equal `Initial(labels, initialInventory)`; duplicate labels collapse; the invariant holds |
| Counter.LineCrossingCounterByClass.Reset | src/counter.py:78-84 | the new state is `AfterReset` of the old one and the invariant is kept |
| Counter.LineCrossingCounterByClass.ProcessObservation | src/counter.py:105-149 | one loop iteration: the new state is `Observe` of the old one |
| Counter.LineCrossingCounterByClass.PurgeStale | src/counter.py:151-154 | the history is restricted to the current ids; the tallies are unchanged; the invariant is kept |
| Counter.LineCrossingCounterByClass.Update | src/counter.py:86-154 | the new state is `AfterUpdate` of the old one; an empty batch changes nothing; otherwise the history keys are exactly the batch's tracked ids; the invariant is kept |
| Config.SpaceIsValid | src/config.py:31-32 | no reserved character is whitespace, and neither is the replacement '_' |
| Config.ReplaceInvalid | src/config.py:31-32 | same length; each reserved character becomes '_' and every other character stays in place |
| Config.IsSpace | src/config.py:32 | definition, no contract: the characters Python's `str.strip()` removes, the Unicode whitespace set |
| Config.SkipLeading | src/config.py:32 | the index of the first non-whitespace character; everything before it is whitespace |
| Config.SkipTrailing | src/config.py:32 | the end of the text once its trailing whitespace is cut off; everything after it is whitespace |
| Config.StripStart | src/config.py:32 | where the stripped text starts, within the input |
| Config.StripEnd | src/config.py:32 | where the stripped text ends, between its start and the end of the input |
| Config.Strip | src/config.py:32 | definition, no contract: `str.strip()`, the window between the two; its properties are in `StripIsWindow`, `StripEmptyIffAllSpace` and `StripKeepsStripped` |
| Config.SanitizeFilename | src/config.py:19-33 | definition, no contract: replace the reserved characters, strip, fall back to "reporte" when empty; its properties are in `SanitizeIsClean`, `SanitizeFallback`, `SanitizeKeepsContent`, `SanitizeKeepsClean` and `SanitizeIdempotent` |
| Config.StripKeepsStripped | src/config.py:32 | strip leaves a string without surrounding whitespace unchanged |
| Config.StripIsWindow | src/config.py:32 | strip keeps a contiguous window of the input, cuts off only whitespace, and what it keeps starts and ends with non-whitespace |
| Config.StripEmptyIffAllSpace | src/config.py:32 | strip returns the empty string exactly when the input is all whitespace |
| Config.StripIsClean | src/config.py:31-32 | a non-empty strip of a text without reserved characters needs no sanitising |
| Config.FallbackIsClean | src/config.py:33 | the fallback name "reporte" needs no sanitising |
| Config.SanitizeIsClean | src/config.py:19-33 | the result is never empty, contains no reserved character and has no leading or trailing whitespace |
| Config.SanitizeFallback | src/config.py:32-33 | an all-whitespace name, the empty name included, becomes "reporte" |
| Config.SanitizeKeepsContent | src/config.py:31-33 | a name with a non-whitespace character does not fall back; the result is its replaced and stripped form |
| Config.SanitizeKeepsClean | src/config.py:19-33 | a name that needs no sanitising is returned unchanged |
| Config.SanitizeIdempotent | src/config.py:19-33 | sanitising twice equals sanitising once |
| Config.DefaultAppConfig | src/config.py:36-74 | definition, no contract: the record with every non-float field at its default; its properties are in `DefaultAppConfigValues` |
| Config.DefaultAppConfigValues | src/config.py:45-74 | the defaults: capacity 50 and initial inventory 0 for each class (so within capacity), direction not inverted, vertical line |
| Detector.IdToName | src/detector.py:79-82 | definition, no contract: a dict table as its (id, name) pairs in order, a list table as (position, name) |
| Detector.LowerAll | src/detector.py:89 | definition, no contract: each whitelist entry lower-cased |
| Detector.TargetLabels | src/detector.py:87-89 | definition, no contract: the lower-cased whitelist when one is given and non-empty, else car, motorcycle and motorbike |
| Detector.Unify | src/detector.py:96-97 | definition, no contract: motorbike becomes motorcycle, every other name is kept |
| Detector.Hit | src/detector.py:93-97 | definition, no contract: the unified name of a class whose lower-cased name is a target label, or none |
| Detector.ValuesInOrder | src/detector.py:102 | the id list has one entry per inserted name; its properties are in `TargetIdsAreValues` |
| Detector.Invert | src/detector.py:105-107 | definition, no contract: the id → name map built in insertion order, later entries overwriting earlier ones; its properties are in `InvertIsInverse` |
| Detector.ClassMappingOf | src/detector.py:79-113 | definition, no contract: the whole unification as a value, failing when no id was stored; its properties are in `FailsIffNoMatch` and `MappingCorrect` |
| Detector.Lower | src/detector.py:89-94 | lower-casing keeps the length and maps each character by ASCII lower-casing |
| Detector.NameToId | src/detector.py:92-99 | the keys of the unified table are exactly the names of its insertion order, and each is inserted once |
| Detector.LowerIdempotent | src/detector.py:89-94 | lower-casing twice equals lower-casing once |
| Detector.HitCaseInsensitive | src/detector.py:94-95 | matching depends only on the lower-cased class name |
| Detector.NameToIdKeys | src/detector.py:92-99 | a unified name is a key exactly when some model class matches it |
| Detector.NameToIdFirstWins | src/detector.py:98-99 | the id stored for a unified name is that of its first matching model class |
| Detector.NameToIdValues | src/detector.py:92-99 | every stored id is the id of a model class whose name unifies to its key |
| Detector.NameToIdInjective | src/detector.py:79-99 | with distinct model ids, different unified names get different ids |
| Detector.NameToIdCaseInsensitive | src/detector.py:93-95 | two models whose class names differ only in case give the same table |
| Detector.DefaultTargetsLowerCase | src/detector.py:87 | the default labels are lower-case |
| Detector.TargetsAreLowerCase | src/detector.py:87-89 | every label matched against is lower-case, whitelist or default |
| Detector.DefaultKeys | src/detector.py:87-99 | without a whitelist (absent or empty) only "car" and "motorcycle" can be keys, and a class named "motorbike" in any case makes "motorcycle" a key |
| Detector.InvertIsInverse | src/detector.py:105-107 | inverting an injective table gives back every name under its id, and nothing else |
| Detector.TargetIdsAreValues | src/detector.py:102 | the target id list holds every stored id, only stored ids, and none twice |
| Detector.FailsIffNoMatch | src/detector.py:109-113 | construction fails exactly when no model class matches a target label |
| Detector.MappingCorrect | src/detector.py:92-107 | on success: the first matching id of each unified name is stored, every key comes from a match, the target ids are exactly the stored ids, and the id→label map is the inverse of the name→id map |
| Detector.InverseAt | src/detector.py:105-107 | on success, the id stored for a unified name maps back to that name |
| Detector.FourClassHit | tests/test_detector_mapping.py:19 | in the four-class model, only car (id 1) and motorbike (id 2) match the default labels |
| Detector.FourClassId | tests/test_detector_mapping.py:32-36 | in the four-class model, car is stored under 1 and motorcycle under 2 |
| Detector.FourClassKeys | tests/test_detector_mapping.py:32 | the four-class model has no key besides car and motorcycle |
| Detector.FourClassDistinct | tests/test_detector_mapping.py:19 | the four-class model's ids are distinct |
| Detector.MotorbikeScenario | tests/test_detector_mapping.py:22-36 | the four-class model yields exactly the keys car and motorcycle, and ids 1 and 2 map back to car and motorcycle |
| Detector.BuildClassMapping | src/detector.py:79-113 | the result equals `ClassMappingOf`; it fails exactly when no class matches; on success every stored id maps back to its name |

## Left out

- The video pipeline, the user interfaces, the CSV and experiment-tracking
  back-ends, the inference server and its client are not part of this model.
- Model loading, inference and `detect` (src/detector.py outside lines 74-113)
  are left out. They are calls into the detection library. The model names
  table arrives as a `ModelNames` parameter instead.
- Conversion of the box coordinates with `astype(int)` happens before the
  counter sees them. Observations carry integer boxes. Floating-point
  coordinates and side values are not modelled.
- A batch is a sequence of observations, each with an optional tracker id and
  an optional class name. A batch with no tracker-id column, or with no class
  name column, is a batch whose entries all lack that field.
- `Counter.LineCrossingCounterByClass.constructor` models the counter built
  with empty tally maps, which is the default. A caller can also pass
  pre-filled maps; that case is not modelled, because it can break the
  inventory invariant from the start.
- `initialInventory` is a constant of the counter. In the code, `reset` reads
  the live `initial_inventory` dictionary (src/counter.py:83). A change made
  to that dictionary by its owner after construction is not modelled.
- `labels` is a sequence. A one-shot iterator, consumed by the constructor so
  that a later `reset` sees no labels, is not modelled.
- `Counter.LineCrossingCounterByClass.Reset`, `.PurgeStale` and `.Update`
  require the class invariant `Valid()`. The constructor establishes it and
  these methods keep it, so this excludes no state the code can reach.
- `Counter.LineCrossingCounterByClass.PurgeStale` removes the stale ids as a
  set. The insertion order of the history dictionary is not modelled.
- `Detector.Lower` models ASCII lower-casing only. Python's `str.lower`
  also maps non-ASCII letters; those are left unchanged here.
- `Detector.BuildClassMapping` requires distinct ids for a dictionary table.
  `NameDict` stands for the table after the `int`/`str` conversion at
  src/detector.py:80, whose keys are distinct. That conversion can merge
  distinct keys of the model's table (`1` and `"1"`, say); such merges are
  not modelled. A list table always has distinct ids.
- Exceptions raised while reading the model's names (the fallback at
  src/detector.py:76-77) are not modelled.
- The floating-point fields of the configuration (confidence, IoU, line
  position) are not modelled.
- Strings are sequences of Unicode scalar values. Python strings holding lone
  surrogates are not modelled.
