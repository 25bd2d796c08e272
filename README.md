# 3dLEDs, modelled in Dafny

3dLEDs drives a Christmas tree strung with 500 addressable lights. A camera
photographs the tree from several angles while the lights come on one at a
time; the bright spot of each photo is recorded, and a reconstruction
pipeline turns those per-angle detections into one 3D coordinate per
light. The coordinates then feed animations (colour transforms over space
and time, written frame by frame as CSV rows and replayed on the tree), a
manual correction screen, and Tree Hero, a rhythm game that uses the tree
as its display.

This project models the deterministic core of that system and proves what
it promises:

- the reconstruction pipeline of `code/s3_coordinate_processing.py`:
  - filtering and grouping of detections;
  - the orthogonal pass with its reflection rule;
  - the diagonal fallback;
  - the outlier filter;
  - neighbour interpolation with its floor average;
  - normalisation to a centred, unit-radius frame;
- its two older variants, `scan/coordinate_processing.py` and
  `coordinate_processing.py`, with fixed-width parsing and their own
  averaging and reliability rules;
- the 24-bit colour packing of the network layer;
- colour blending and the colour wheel;
- the transform pipeline of the animator;
- the frame loggers and coordinate readers of the animation tools;
- the CSV chunking and red/green swap of the animation player;
- the gender-reveal stage machine;
- Tree Hero's score state, lane geometry, lane assignment by cross
  product, chart tick lookup, key bindings and note state machines;
- the helpers of the manual adjustment screen;
- in-place pixel thresholding.

Modules follow the source files:

- `Coords`: `code/utils/coords.py`
- `Reconstruction`, `ShotTable`, `Resolvers`, `Stages`, `Outliers`, `Interpolation`, `Normalization`: the stages of `code/s3_coordinate_processing.py`
- `FixedWidth`, `ScanReconstruction`: `scan/coordinate_processing.py`
- `LegacyReconstruction`: `coordinate_processing.py`
- `NetworkConst`: `code/network/const.py`
- `Colors`: `code/utils/colors.py`
- `GameConst`: `code/treehero/const.py`
- `Reveal`: `code/s4_gender_reveal.py`
- `Animator`: `code/utils/animator.py`
- `Animation`: `code/utils/animation.py`
- `AnimationUtils`: `code/animation_utils.py`
- `GenerateUtils`: `animations/generate/animation_utils.py`
- `RunAnimation`: `code/s5_run_animation.py`
- `Tree`: `code/treehero/tree.py`
- `Song`: `code/treehero/song.py`
- `Settings`: `code/treehero/settings.py`
- `Inputs`: `code/treehero/inputs.py`
- `Manual`: `code/s3_manual.py`
- `HeroNote`: `code/treehero/note.py`
- `TreeHeroPrototype`: `code/tree_hero.py`
- `ImageProcessing`: `image_processing.py`
- `Text`, `Wrappers`: Python's `int()`, `str()`, `split`, `rstrip` and the Option/Result results

The pipeline's shared dictionaries are modelled as classes that the stage
methods modify (`Reconstruction.CoordinateMap`, `Reconstruction.MissingSet`).
Each loop is a method proved against a recursive specification function,
and the meaning of that function is proved in separate lemmas. Python
semantics are written out where they matter:

- `//` floors;
- `int()` truncates toward zero;
- `%` is never negative;
- negative list indices count from the end;
- `list.remove` removes the first occurrence;
- dictionaries iterate in insertion order, given as an explicit order of keys;
- `None` and `[]` are false.

Floating-point values are exact reals.

## Model

| member | source | states |
|---|---|---|
| Coords.WithX | code/utils/coords.py:15-16 | a copy with the new x; id, y and z kept |
| Coords.WithY | code/utils/coords.py:18-19 | a copy with the new y; id, x and z kept |
| Coords.WithZ | code/utils/coords.py:21-22 | a copy with the new z; id, x and y kept |
| Coords.Distance2 | code/utils/coords.py:24-29 | the squared distance is non-negative and zero exactly when the positions coincide |
| Coords.DistanceSymmetric | code/utils/coords.py:24-29 | the distance from a to b equals the distance from b to a |
| Coords.DistanceIgnoresId | code/utils/coords.py:24-29 | the led id plays no part in the distance |
| Coords.GetItem | code/utils/coords.py:31-32 | indices 0..3 and -4..-1 give led_id, x, y, z; any other index is an IndexError |
| Coords.Position | code/utils/coords.py:31-32 | c[1:] is [x, y, z] |
| Coords.Coord2dFromJson | code/utils/coords.py:55-58 | Coord2d(**attrs) succeeds exactly when the keys are the five field names |
| Coords.Coord2dRoundTrip | code/utils/coords.py:52-58 | a Coord2d's JSON loads back as the same record |
| Coords.Coord3dFromJsonRejectsOwnJson | code/utils/coords.py:34-40 | as written, a Coord3d's own JSON never loads back: it lacks angle and b and has z |
| Coords.Coord3dFromJsonIntended | code/utils/coords.py:37-40 | Coord3d(**attrs) succeeds exactly when the keys are led_id, x, y, z |
| Coords.Coord3dRoundTrip | code/utils/coords.py:34-40 | with the intended constructor a Coord3d's JSON loads back as itself |
| Text.Slice | scan/coordinate_processing.py:150-153 | line[lo:hi] holds the characters from lo, clamped to the line's length |
| Text.StripRight | scan/coordinate_processing.py:143 | rstrip keeps a prefix, removes only whitespace and leaves none at the end |
| Text.ParseDecimalString | code/s5_run_animation.py:44-50 | int(str(n)) == n for every integer |
| Text.NatDigitsValue | code/s5_run_animation.py:44-50 | the decimal digits of n read back as n |
| Text.Trunc | coordinate_processing.py:70-71 | int() of a float truncates towards zero: floor for non-negative values, ceiling for negative ones |
| Text.TruncOfInteger | coordinate_processing.py:70-71 | int() leaves an integral value unchanged |
| FixedWidth.Padded | scan/coordinate_processing.py:150-153 | a zero-padded field has exactly the column width and only digits |
| FixedWidth.PaddedValue | scan/coordinate_processing.py:150-153 | a zero-padded field holds the number it was written from |
| FixedWidth.ParsePadded | scan/coordinate_processing.py:150-153 | int() of a zero-padded field gives back its number |
| FixedWidth.ParseLineFields | scan/coordinate_processing.py:149-153 | a line with the id in columns 2-4, angle in 11-13, x in 16-19 and y in 22-25 reads as that detection |
| FixedWidth.ShortLineRejected | scan/coordinate_processing.py:153 | a line that ends before the y field makes int() raise |
| FixedWidth.KeptSnaps | scan/coordinate_processing.py:154-155 | only detections with non-zero x and y are kept |
| FixedWidth.KeptSnapsMembers | scan/coordinate_processing.py:149-157 | a detection is kept exactly when some line reads as it and its x and y are non-zero |
| FixedWidth.SnapsOf | scan/coordinate_processing.py:157 | the group of a light holds only that light's detections, in order |
| FixedWidth.GroupedSpec | scan/coordinate_processing.py:157 | the table has a key exactly for each light with a kept detection, holding all of them in file order, keys in first-seen order |
| FixedWidth.ReadLines | scan/coordinate_processing.py:149-157 | the reading loop stops at the first line that does not parse; otherwise it returns the grouped kept detections |
| FixedWidth.ParseLines | coordinate_processing.py:92-105 | the same loop with the fixed-width reader: a bad line index, or the grouped table |
| Reconstruction.AppendNewEnumerates | code/s3_coordinate_processing.py:457 | writing keys into an ordered dictionary keeps them distinct and adds exactly the new ones |
| Reconstruction.Without | code/s3_coordinate_processing.py:400 | deleting a key leaves every other key, once each |
| Reconstruction.DeleteKeys | code/s3_coordinate_processing.py:397-400 | deleting the listed keys keeps exactly the other keys with their values, in their original relative order |
| Reconstruction.WithoutSelected | code/s3_coordinate_processing.py:400 | deleting one key from an ordered selection is selecting without that key |
| Reconstruction.SelectedTwice | code/s3_coordinate_processing.py:397-400 | selecting from a selection selects by both sets, in the original order |
| Reconstruction.CoordinateMap.constructor | code/s3_coordinate_processing.py:442 | the coordinate dictionary starts empty |
| Reconstruction.MissingSet.constructor | code/s3_coordinate_processing.py:410 | the missing dictionary starts empty |
| Reconstruction.FloorDiv | code/s3_coordinate_processing.py:146-148 | Python's // rounds towards minus infinity, for either sign of divisor |
| Reconstruction.Avg | code/s3_coordinate_processing.py:146-148 | avg(a, a, k) == a, and for an offset of at least 1 the result lies between a and b |
| Reconstruction.DivTowardsZero | code/s3_coordinate_processing.py:146-148 | dividing by a positive offset moves the difference towards zero |
| Reconstruction.NormalizeToCenter | code/s3_coordinate_processing.py:493-497 | the centring shift leaves z alone |
| Reconstruction.DenormalizeFromCenter | code/s3_coordinate_processing.py:508-512 | the inverse shift leaves z alone |
| Reconstruction.CenterRoundTrip | code/s3_coordinate_processing.py:493-512 | denormalize_from_center and normalize_to_center undo each other in both orders |
| Reconstruction.PrevFrom | code/s3_coordinate_processing.py:465-471 | the downward scan stops at the first reliable id at or below its start, or at -1 |
| Reconstruction.NextFrom | code/s3_coordinate_processing.py:474-480 | the upward scan stops at the first reliable id at or above its start, or at 500 |
| Reconstruction.PrevNeighbor | code/s3_coordinate_processing.py:465-471 | the greatest reliable id below, or -1 when there is none |
| Reconstruction.NextNeighbor | code/s3_coordinate_processing.py:474-480 | the smallest reliable id above, up to 499, or 500 when there is none |
| Reconstruction.PrevNeighborUnique | code/s3_coordinate_processing.py:465-471 | that characterisation of the previous neighbour has only one solution |
| Reconstruction.NextNeighborUnique | code/s3_coordinate_processing.py:474-480 | that characterisation of the next neighbour has only one solution |
| Reconstruction.GetPrevNeighborId | code/s3_coordinate_processing.py:465-471 | the offset loop returns the previous reliable neighbour (reliable: present with x, y, z > 0) |
| Reconstruction.GetNextNeighborId | code/s3_coordinate_processing.py:474-480 | the offset loop returns the next reliable neighbour |
| ShotTable.ToSnap | code/s3_coordinate_processing.py:457 | the stored shot carries the record's id, angle, x and y |
| ShotTable.ShotsOf | code/s3_coordinate_processing.py:452-457 | a light's group holds only its own shots, each with non-zero x and y |
| ShotTable.ShotsOfAppend | code/s3_coordinate_processing.py:445-457 | grouping more lines extends each group at its end, so groups keep file order |
| ShotTable.ShotsOfMembers | code/s3_coordinate_processing.py:452-457 | a shot is in a light's group exactly when some record of that light has x != 0, y != 0 and v >= 100 and gives that shot |
| ShotTable.ShotsOfEmpty | code/s3_coordinate_processing.py:452-457 | a light's group is empty exactly when none of its records is kept |
| ShotTable.KeptOrder | code/s3_coordinate_processing.py:457 | the table's keys, once each, in order of first kept record |
| ShotTable.TableGroups | code/s3_coordinate_processing.py:445-457 | the table has a non-empty group for exactly the lights with a kept record |
| ShotTable.Records | code/s3_coordinate_processing.py:445-451 | one record per line, each the decoder's result for that line |
| ShotTable.ParseDataFile | code/s3_coordinate_processing.py:440-458 | no result exactly when some line fails to decode (json.loads or int() raises); otherwise the loop builds that table and key order over the decoded records |
| Resolvers.MiddleShot | code/s3_coordinate_processing.py:156-158 | middle_z's shot has the least distance to column 540, and is the first one with that distance |
| Resolvers.Usable | code/s3_coordinate_processing.py:414 | the filter keeps exactly the shots with non-zero x and y |
| Resolvers.Facing | code/s3_coordinate_processing.py:418-422 | the shots taken from one of the two opposite angles |
| Resolvers.FacingNone | code/s3_coordinate_processing.py:418-422 | without a shot from either angle nothing is selected |
| Resolvers.FacingFirst | code/s3_coordinate_processing.py:418-422 | the first selected shot is the first shot from either angle |
| Resolvers.AxisValueFirst | code/s3_coordinate_processing.py:418-422 | an axis is the first facing shot's x from the direct angle, 1080 - x from the opposite one |
| Resolvers.AxisValueNone | code/s3_coordinate_processing.py:418-422 | with no facing shot the axis is 0 |
| Resolvers.OrthogonalCoord | code/s3_coordinate_processing.py:416-427 | the square pass's coordinate keeps the light's id |
| Resolvers.OrthogonalHeight | code/s3_coordinate_processing.py:156-158 | z is the y of a shot nearest the photograph's centre line |
| Resolvers.Rotate | code/s3_coordinate_processing.py:483-490 | turning in the horizontal plane keeps the id and z |
| Resolvers.RotateIdentity | code/s3_coordinate_processing.py:483-490 | a turn by nothing leaves an integer position unchanged |
| Resolvers.DiagonalCoord | code/s3_coordinate_processing.py:366-394 | an axis the square pass found is kept; a diagonal axis not found is zeroed; z is middle_z of all the shots |
| Resolvers.DiagonalBothMissingKeepsRotatedY | code/s3_coordinate_processing.py:379-382 | when neither diagonal axis is found only x is zeroed, and y keeps the turned value |
| Stages.SquareReadings | code/s3_coordinate_processing.py:411-427 | one square reading per light of the shot table |
| Stages.WrittenSpec | code/s3_coordinate_processing.py:427 | writing coordinates[k] for each listed light sets exactly those keys and leaves every other entry alone |
| Stages.UnresolvedTableSpec | code/s3_coordinate_processing.py:424-425 | a light enters missing exactly when its x or y is 0, holding its filtered shots |
| Stages.UnresolvedOrderSelected | code/s3_coordinate_processing.py:411-425 | the missing table lists the unresolved lights in shot-table order |
| Stages.OrthogonalPass | code/s3_coordinate_processing.py:411-429 | every light with shots gets its reading; missing holds exactly the unresolved ones with their usable shots, in shot-table order; other lights are unchanged |
| Stages.ProcessOrthogonal | code/s3_coordinate_processing.py:405-429 | the same, applied to the shared coordinate dictionary, with missing returned fresh and its keys listed in shot-table order |
| Reconstruction.SelectedSpec | code/s3_coordinate_processing.py:397-400 | the selected keys are exactly the listed ones in the chosen set, once each |
| Stages.FixedTableSpec | code/s3_coordinate_processing.py:389-392 | fixed_45 holds exactly the lights with both diagonal axes, each with its new coordinate |
| Stages.DiagonalReadings | code/s3_coordinate_processing.py:363-394 | one diagonal reading per missing light |
| Stages.DiagonalResolvedIds | code/s3_coordinate_processing.py:389 | the lights whose filtered shots give both diagonal axes |
| Stages.DiagonalPass | code/s3_coordinate_processing.py:363-394 | every missing light gets its diagonal reading and no other changes; fixed_45 holds exactly the resolved ones |
| Stages.ProcessDiagonal | code/s3_coordinate_processing.py:356-402 | the shared dictionaries afterwards: resolved lights leave missing, the rest stay with their shots, fixed_45 holds the resolved coordinates |
| Outliers.FartherThanDistance | code/s3_coordinate_processing.py:34-39 | comparing squared distances decides distance > limit exactly as the square root would |
| Outliers.PrevOrSelf | code/s3_coordinate_processing.py:259-262 | the previous id compared with is at or below the light, and is reliable unless it is the light itself |
| Outliers.NextOrSelf | code/s3_coordinate_processing.py:259-264 | the next id compared with is at or above the light, and is reliable unless it is the light itself |
| Outliers.UnreliableDropped | code/s3_coordinate_processing.py:252-255 | a present light that is not reliable is always marked |
| Outliers.LoneSideKept | code/s3_coordinate_processing.py:261-273 | a reliable light lacking a reliable neighbour on one side compares with itself there and is never marked |
| Outliers.BothSidesDecide | code/s3_coordinate_processing.py:266-273 | a reliable light with neighbours on both sides is marked exactly when both distances exceed gap times the percentile |
| Outliers.MarkedSpec | code/s3_coordinate_processing.py:250-273 | the marked list holds exactly the outliers below n, once each |
| Outliers.MarkOutliers | code/s3_coordinate_processing.py:250-273 | the decision loop marks exactly the outliers of 0..499, each once, deciding on the unchanged map |
| Outliers.InvalidateOutliers | code/s3_coordinate_processing.py:250-278 | afterwards the map holds exactly the entries that were not marked, with their old values |
| Outliers.SurvivorsReliable | code/s3_coordinate_processing.py:250-278 | every light of 0..499 left is reliable, and every reliable non-outlier stays |
| Interpolation.FillValueSpec | code/s3_coordinate_processing.py:337-349 | a light is filled exactly when it has reliable neighbours on both sides within 0..499; the value lies between them axis by axis and is reliable |
| Interpolation.Interpolate | code/s3_coordinate_processing.py:342-348 | each axis is avg(prev, next, next_id - prev_id), which lies between the two neighbours |
| Interpolation.FillValueSound | code/s3_coordinate_processing.py:337-349 | a filled coordinate always carries its own id and is reliable |
| Interpolation.FillOne | code/s3_coordinate_processing.py:333-350 | one turn of the loop: skip a present reliable light that is not missing, otherwise write the interpolation when both neighbours exist |
| Interpolation.NeighborPass | code/s3_coordinate_processing.py:331-353 | the loop over ids 0..499 ends in the state of the step function after 500 steps |
| Interpolation.FilledKeys | code/s3_coordinate_processing.py:331-353 | no key is lost, the only new keys are the filled lights, and both key orders stay complete |
| Interpolation.FilledValues | code/s3_coordinate_processing.py:345-350 | each filled light holds the value computed from the map as it stood at its turn, and every other light keeps its value |
| Interpolation.FilledBelow | code/s3_coordinate_processing.py:332 | after n steps only ids below n have been touched |
| Interpolation.FilledReliable | code/s3_coordinate_processing.py:345-350 | every filled light is reliable in the final map, so it can serve as a neighbour for later lights |
| Interpolation.FixWithNeighbors | code/s3_coordinate_processing.py:326-353 | the shared map and the returned fixed_neighbor are those of the pass |
| Normalization.Centered | code/s3_coordinate_processing.py:500-505 | the centred light keeps its id and is normalize_to_center of its position |
| Normalization.Min | code/s3_coordinate_processing.py:187-191 | min() is an element no larger than any other |
| Normalization.Max | code/s3_coordinate_processing.py:187-192 | max() is an element no smaller than any other |
| Normalization.MaxByAbs | code/s3_coordinate_processing.py:208 | max(key=abs) is the first element of largest magnitude, with its sign, so on a tie between -300 and 300 the earlier one is the divisor |
| Normalization.MaxByAbsTie | code/s3_coordinate_processing.py:208 | on a tie between -300 listed first and 300, max(key=abs) gives -300 |
| Normalization.CenteredAll | code/s3_coordinate_processing.py:186 | the centred list, light by light |
| Normalization.FrameBounds | code/s3_coordinate_processing.py:186-208 | no centred light is above max_z, and no centred x or y exceeds the divisor in magnitude |
| Normalization.FrameWitnesses | code/s3_coordinate_processing.py:186-208 | some light sits at max_z, and the divisor is some light's centred x or y |
| Normalization.FrameOfSpec | code/s3_coordinate_processing.py:186-208 | both of the above together |
| Normalization.Scale | code/s3_coordinate_processing.py:198-209 | inverting z and dividing keeps the light's id |
| Normalization.Normalized | code/s3_coordinate_processing.py:184-209 | defined exactly when the map is non-empty and the divisor is not 0; one scaled point per light, in order |
| Normalization.DivBound | code/s3_coordinate_processing.py:208-209 | a value no larger in magnitude than the divisor lands in [-1, 1], on -1 or 1 when equal in magnitude |
| Normalization.DivSign | code/s3_coordinate_processing.py:209 | dividing by a positive divisor keeps a value's sign and by a negative one flips it |
| Normalization.ScaleHeight | code/s3_coordinate_processing.py:198-209 | the scaled height lies on the divisor's side of 0, and is 0 for the light at max_z |
| Normalization.ScaleRadius | code/s3_coordinate_processing.py:208-209 | scaled x and y lie in [-1, 1], and reach it for the extreme light |
| Normalization.NormalizedUnitRadius | code/s3_coordinate_processing.py:184-209 | every x and y lands in [-1, 1] and some light reaches -1 or 1 |
| Normalization.NormalizedHeightSign | code/s3_coordinate_processing.py:198-209 | as written, heights are non-negative for a positive divisor and non-positive for a negative one |
| Normalization.LeftPairFrame | code/s3_coordinate_processing.py:186-208 | two lights left of the centre column have max_z 10 and divisor -535 |
| Normalization.NegativeDivisorFlips | code/s3_coordinate_processing.py:208-209 | for those lights the scaling moves a light from the left to the right and gives a negative height |
| Normalization.NormalizedByMagnitude | code/s3_coordinate_processing.py:208-209 | the intended scaling divides by the magnitude of the extreme value |
| Normalization.NormalizedByMagnitudeSpec | code/s3_coordinate_processing.py:184-209 | intended scaling: x and y keep their side of the centre and lie in [-1, 1], one of them reaching it; heights are non-negative with the lowest light at 0 |
| Normalization.Values | code/s3_coordinate_processing.py:186 | coordinates.values() in the map's order |
| Normalization.Ids | code/s3_coordinate_processing.py:223-224 | the ids of the scaled points, in order |
| Normalization.StoreAll | code/s3_coordinate_processing.py:223-224 | each scaled point is stored under its id; no other key is added or changed |
| Normalization.NormalizedKeepsIds | code/s3_coordinate_processing.py:184-224 | scaling keeps every light's id, so the points are written back under the keys they came from |
| Normalization.AsPoints | code/s3_coordinate_processing.py:184-224 | the integer map seen with real axes has the same keys and values |
| Normalization.NormalizeCoordinates | code/s3_coordinate_processing.py:184-224 | the map after the write-back has the same keys, each holding its light's scaled point; None where the Python raises |
| ScanReconstruction.ScanToCenter | scan/coordinate_processing.py:283-287 | this version's centring shift leaves z alone |
| ScanReconstruction.ScanFromCenter | scan/coordinate_processing.py:290-294 | the inverse shift leaves z alone |
| ScanReconstruction.ScanCenterRoundTrip | scan/coordinate_processing.py:283-294 | the two shifts undo each other in both orders |
| ScanReconstruction.ScanRotate | scan/coordinate_processing.py:273-280 | turning keeps the id and z |
| ScanReconstruction.ScanRotateIdentity | scan/coordinate_processing.py:273-280 | a turn by nothing leaves an integer position unchanged |
| ScanReconstruction.ScanSquareCoord | scan/coordinate_processing.py:165-178 | x from the first usable 0/180 shot, y from the first usable 90/270 shot (1080 - x when reflected), z from extract_z |
| ScanReconstruction.ScanSquareReadings | scan/coordinate_processing.py:162-178 | one square reading per light of the shot table |
| ScanReconstruction.ScanDiagonalCoord | scan/coordinate_processing.py:189-217 | stored non-zero axes override the diagonal values; an axis not found is zeroed |
| ScanReconstruction.ScanDiagonalReadings | scan/coordinate_processing.py:186-217 | one diagonal reading per missing light |
| ScanReconstruction.ScanPrevFrom | scan/coordinate_processing.py:230-236 | the downward scan reaches the first reliable id at or below its start, or -1 |
| ScanReconstruction.ScanNextFrom | scan/coordinate_processing.py:238-244 | the upward scan reaches the first reliable id at or above its start up to 499, or 500 |
| ScanReconstruction.FindPrev | scan/coordinate_processing.py:230-236 | the loop finds the previous reliable light and its offset exactly when there is one (reliable here: x > 0 and y > 0, z ignored) |
| ScanReconstruction.FindNext | scan/coordinate_processing.py:238-244 | the loop finds the next reliable light up to 499 and its offset exactly when there is one |
| ScanReconstruction.ScanFillValueSpec | scan/coordinate_processing.py:246-253 | a light is filled exactly when both neighbours exist, with offset p_offset + n_offset; each axis lies between them and x, y are positive |
| ScanReconstruction.ScanFillValueSound | scan/coordinate_processing.py:246-253 | a filled coordinate carries its own id and is reliable |
| ScanReconstruction.ScanFillOne | scan/coordinate_processing.py:229-255 | one turn of the loop: skip when a neighbour is missing, otherwise write and record the interpolation |
| ScanReconstruction.ScanNeighborPass | scan/coordinate_processing.py:228-255 | the loop over the missing lights ends in the state of the step function |
| ScanReconstruction.ScanFilledKeys | scan/coordinate_processing.py:229-255 | the loop adds no key when every missing light is already in the map |
| ScanReconstruction.ScanFilledValues | scan/coordinate_processing.py:250-255 | each filled light holds the value computed at its turn; an unfilled one keeps its value |
| ScanReconstruction.ScanFilledFixed | scan/coordinate_processing.py:254-255 | fixed_neighbor holds coordinates of handled lights with positive x and y, as stored in the map |
| ScanReconstruction.ScanFilledUntouched | scan/coordinate_processing.py:229-255 | a light whose turn has not come keeps its value |
| ScanReconstruction.ScanFilledReliable | scan/coordinate_processing.py:229-255 | every light the loop filled is reliable in the final map |
| ScanReconstruction.ScanSquareThenDiagonal | scan/coordinate_processing.py:159-217 | after the two loops each light holds its square reading, or its diagonal reading when the square shots miss an axis; missing holds exactly the square-unresolved lights with their usable shots, in shot-table order; fixed_45 holds exactly those of them the diagonals resolve, as stored |
| ScanReconstruction.ScanPassCoordOf | scan/coordinate_processing.py:174-177 | a light's entry is its diagonal reading exactly when it went into missing, and its square reading otherwise |
| ScanReconstruction.ScanPassMapOf | scan/coordinate_processing.py:145-217 | a map holding every light's pass coordinate is the coordinate map after the passes |
| ScanReconstruction.ScanLeftOverKeys | scan/coordinate_processing.py:210-223 | after the diagonal fixes are deleted, missing holds exactly the lights neither pass resolves |
| ScanReconstruction.ScanResolve | scan/coordinate_processing.py:159-223 | every light holds its pass coordinate; fixed_45 holds exactly the square-unresolved lights whose diagonal shots give both axes, as stored; missing holds exactly the lights neither pass resolves, with their usable shots, in shot-table order |
| ScanReconstruction.ScanFilledSummary | scan/coordinate_processing.py:229-255 | the neighbour loop adds no key, changes no light outside missing, and records only lights of missing, as stored and reliable |
| ScanReconstruction.ScanPasses | scan/coordinate_processing.py:159-255 | the coordinate map and fixed_neighbor are exactly the neighbour loop's result over the pass coordinates, visiting the left-over lights in shot-table order; lights outside missing keep their pass coordinate; fixed_45 is exactly the diagonal fixes; every interpolated light is a left-over light, stored as listed and reliable |
| ScanReconstruction.ScanMain | scan/coordinate_processing.py:141-255 | main fails exactly when a line does not parse; otherwise the outcome is that of the passes over the table built from the file, in order of first appearance |
| LegacyReconstruction.LegacyAvg | coordinate_processing.py:70-71 | int((a + b) / 2) lies between a and b, and is at least 1 when both are |
| LegacyReconstruction.SumYBounds | coordinate_processing.py:115 | the sum of the shots' y lies between n times any lower and upper bound |
| LegacyReconstruction.MeanBounds | coordinate_processing.py:115 | a mean of values within bounds lies within them |
| LegacyReconstruction.MeanHeightWithin | coordinate_processing.py:115 | z, the truncated mean of the shots' y, lies within any bounds on those y |
| LegacyReconstruction.LegacyCoord | coordinate_processing.py:113-131 | x and y as in the later pipeline, z the truncated mean of all the shots' y |
| LegacyReconstruction.LegacyReadings | coordinate_processing.py:110-131 | one reading per light of the shot table |
| LegacyReconstruction.NoX | coordinate_processing.py:124-127 | a light lacks x exactly when no usable shot faces 0 or 180 |
| LegacyReconstruction.NoY | coordinate_processing.py:117-120 | a light lacks y exactly when no usable shot faces 90 or 270 |
| LegacyReconstruction.LegacySquarePass | coordinate_processing.py:108-131 | every light gets its reading; missingx and missingy list the lights without 0/180 and 90/270 shots, in key order |
| LegacyReconstruction.Midpoint | coordinate_processing.py:147 | the replacement keeps the id, with x and y at least 1 when both neighbours' are |
| LegacyReconstruction.FixNeighbors | coordinate_processing.py:137-151 | the fix loop keeps the key set and every resolved light; each fixed light is stored with positive x and y |
| LegacyReconstruction.FixedUntouched | coordinate_processing.py:137-151 | keys not yet reached keep their values |
| LegacyReconstruction.FixedValues | coordinate_processing.py:139-151 | an unresolved light with reliable immediate neighbours gets their componentwise avg; any other keeps its value |
| LegacyReconstruction.FixedResolved | coordinate_processing.py:147-151 | every fixed light ends up with positive x and y and is stored in the map |
| LegacyReconstruction.UnfixableIds | coordinate_processing.py:154-157 | the lights with both x and y at 0 and unreliable neighbours |
| LegacyReconstruction.ReportUnfixable | coordinate_processing.py:154-157 | the reporting loop prints exactly those lights, once each |
| LegacyReconstruction.FixedUnresolvedKept | coordinate_processing.py:137-151 | a light the fix loop leaves without x or y keeps its square reading |
| LegacyReconstruction.LegacyPasses | coordinate_processing.py:107-157 | the map and fixed are exactly the fix loop's result over the square readings in shot-table order; missingx and missingy list, in that order, exactly the lights with no shot for the axis; a light resolved by the square shots, or unresolved at the end, keeps its square reading; each fixed light has positive x and y; the report is exactly the unfixable lights |
| LegacyReconstruction.FixedStillResolved | coordinate_processing.py:139 | a light with x and y already set is never replaced |
| LegacyReconstruction.LegacyMain | coordinate_processing.py:84-157 | main fails exactly when a line does not parse; otherwise every statement of the passes holds over the table built from the file, in order of first appearance |
| NetworkConst.OrDisjoint | code/network/const.py:9-10 | or-ing a value of either sign shifted past the low bits with a smaller non-negative value adds them (Python's `|` on two's-complement integers) |
| NetworkConst.EncodeRgbValue | code/network/const.py:9-10 | encode_rgb(r, g, b) == r * 65536 + g * 256 + b for any red, negative included, when g and b fit in a byte |
| NetworkConst.OrShifted | code/network/const.py:9-10 | shifting distributes over bitwise or |
| NetworkConst.DecodeRgb | code/network/const.py:13-18 | g and b lie in 0..255, r is non-negative exactly when the value is, and r * 65536 + g * 256 + b == v |
| NetworkConst.DecodeEncode | code/network/const.py:9-18 | decode_rgb(encode_rgb(r, g, b)) == (r, g, b) for any red when g and b fit in a byte |
| NetworkConst.EncodeDecode | code/network/const.py:9-18 | encode_rgb(*decode_rgb(v)) == v for every integer v, negative ones included |
| NetworkConst.RgbFromJson | code/network/const.py:45-49 | a colour comes back exactly when the text is a plain integer as `Text.ParseInt` reads it; its g and b lie in 0..255, its red is negative exactly when the code is, and it encodes back to the code |
| NetworkConst.NegativeCodeColour | code/network/const.py:13-49 | the code "-1" gives RGB(-1, 255, 255) |
| NetworkConst.RgbJsonRoundTrip | code/network/const.py:41-49 | RGB.from_json(str(c.to_json())) == c when g and b fit in a byte |
| NetworkConst.PacketLevel | code/network/const.py:78 | x % 100 + 100 lies in 100..199 |
| NetworkConst.MakePacket | code/network/const.py:75-81 | a packet from the sender with the instruction and frame 1, holding 500 grey entries, entry x at x % 100 + 100 |
| Colors.RgbList | code/utils/colors.py:10-11 | three components |
| Colors.ToColorRgbList | code/utils/colors.py:10-15 | to_color(c.rgb_list()) is c |
| Colors.Lerp | code/utils/colors.py:31-33 | _lerp(a, b, 0) == a and _lerp(a, b, 1) == b |
| Colors.LerpBetween | code/utils/colors.py:31-33 | for 0 <= r <= 1 the result lies between a and b |
| Colors.BlendEnds | code/utils/colors.py:17-22 | to_blended_color gives the first colour at r = 0 and the second at r = 1 |
| Colors.ScaledWithin | code/utils/colors.py:26-33 | scaling a non-negative value by a factor in [0, 1] stays within [0, value] |
| Colors.TruncBetween | code/utils/colors.py:20-22 | int() of a value between two integers lies between them |
| Colors.BlendBetween | code/utils/colors.py:17-22 | every blended component lies between the two colours' components |
| Colors.AdjustBrightness | code/utils/colors.py:24-28 | brightness 1 leaves the colour unchanged, brightness 0 gives LED_OFF |
| Colors.DimmingBounds | code/utils/colors.py:24-28 | a brightness in [0, 1] never raises a non-negative component nor makes it negative |
| Colors.ComponentDims | code/utils/colors.py:26-28 | int(v * brightness) lies in 0..v |
| Colors.WheelRange | code/utils/colors.py:55-66 | for pos in [0, 256) every component lies in 0..255 and they sum to 255 |
| Colors.WheelPoints | code/utils/colors.py:59-66 | wheel(0) is green, wheel(85) red and wheel(170) blue |
| Colors.WheelTruncates | code/utils/colors.py:57 | wheel depends only on int(pos) |
| GameConst.DerivedConstants | code/treehero/const.py:37-59 | the highway is 300 wide and the frame 800; the target line is at 500 and the hit box spans 485..515 |
| GameConst.LaneXCenter | code/treehero/const.py:95-96 | lane_x_center(id) == lane_x(id) + 16 |
| GameConst.LaneGeometry | code/treehero/const.py:91-92 | lane_x is strictly increasing, adjacent notes never overlap, and the five lanes fill the highway between its outside paddings |
| GameConst.ScoreAndStreak | code/treehero/const.py:99-112 | after any run of hits and misses, score == hits - misses, 0 <= streak <= hits, a miss resets the streak, and the streak counts only hits since the last miss |
| GameConst.State.constructor | code/treehero/const.py:102-104 | a new state has streak 0 and score 0 |
| GameConst.State.NoteHit | code/treehero/const.py:106-108 | note_hit adds 1 to both streak and score |
| GameConst.State.NoteMiss | code/treehero/const.py:110-112 | note_miss sets the streak to 0 and takes 1 from the score |
| Reveal.Period | code/s4_gender_reveal.py:180-188 | each stage's period is 2, 4 or 8 |
| Reveal.StageCompletePeriod | code/s4_gender_reveal.py:180-188 | stage_complete holds exactly on multiples of the period (8 for regular and back_to_regular, 2 for blue_pink and reveal, 4 for build_up), so always at 0 |
| Reveal.FrameStep | code/s4_gender_reveal.py:115-145 | a frame never changes the click |
| Reveal.RevealRound | code/s4_gender_reveal.py:97-177 | one pass of the loop, with its inner loop over the frames, yields the round's state and whether reveal returned |
| Reveal.FramesKeepStage | code/s4_gender_reveal.py:114-145 | outside build_up and reveal the frames leave stage, counter, width and click alone |
| Reveal.FramesInReveal | code/s4_gender_reveal.py:115-118 | in reveal every frame resets the width to 300 and the counter to 0 |
| Reveal.FramesInBuildUp | code/s4_gender_reveal.py:128-134 | in build_up the frames either stay there or move on to reveal with blend and counter reset |
| Reveal.RoundHasFrames | code/s4_gender_reveal.py:107-114 | every round draws at least one frame, with a step of at least 2 |
| Reveal.RoundSpec | code/s4_gender_reveal.py:97-177 | a round returns only from back_to_regular when its period is up; otherwise the stage stays or goes up by one, with blend reset, and stays within 0..4 and click within 0..3 |
| Reveal.RevealIsFinal | code/s4_gender_reveal.py:115-118 | once in reveal the counter is 1 after every round, so the stage never completes |
| Reveal.NeverReturns | code/s4_gender_reveal.py:97-177 | from a state before back_to_regular, reveal never returns in any number of rounds |
| Reveal.InitialNeverReturns | code/s4_gender_reveal.py:87-177 | from its initial state reveal never gets past the reveal stage |
| Animator.Apply | code/utils/animator.py:36-49 | a ColorTransform returns the coordinate unchanged, a LocationTransform the colour unchanged |
| Animator.ApplyAll | code/utils/animator.py:26-29 | the inner loop folds every transform in order over (coord, LED_OFF) |
| Animator.RunPrefix | code/utils/animator.py:28-29 | transforms appended later do not change the first n steps of the fold |
| Animator.AppendedRunsLast | code/utils/animator.py:9-15 | an appended transform runs last, on the result of the earlier ones |
| Animator.NoTransformsAllOff | code/utils/animator.py:26-31 | with no transforms every light is LED_OFF |
| Animator.KindsDoNotMix | code/utils/animator.py:36-49 | colour transforms alone never move a light; location transforms alone never colour it |
| Animator.Snapshots | code/utils/animator.py:24-33 | one snapshot per frame |
| Animator.PaintSpec | code/utils/animator.py:25-31 | after a frame every light holds its folded colour and every other pixel keeps its colour |
| Animator.SnapshotColors | code/utils/animator.py:24-33 | in snapshot f every light has the colour its transforms give for frame f |
| Animator.SnapshotAt | code/utils/animator.py:24-33 | snapshot f is the pixel map after frames 0..f |
| Animator.Animator.constructor | code/utils/animator.py:4-7 | a new animator has no transforms and frames == -1 |
| Animator.Animator.TransformLocation | code/utils/animator.py:9-11 | appends a location transform and returns the same animator |
| Animator.Animator.TransformColor | code/utils/animator.py:13-15 | appends a colour transform and returns the same animator |
| Animator.Animator.Until | code/utils/animator.py:17-19 | sets frames and returns the same animator |
| Animator.Animator.Animate | code/utils/animator.py:21-33 | fails its assertion exactly when frames < 0 and then changes nothing; otherwise show is called once per frame after every light is set |
| Animation.StripLogger.FromCoordinates | code/utils/animation.py:53-56 | a new logger has no pixels and no frames, and its rows cover as many lights as there are coordinates |
| Animation.StripLogger.WithFixedWidth | code/animation_utils.py:68-70 | the older logger starts empty and its rows always cover 500 lights, whatever pixel_count says |
| Animation.StripLogger.SetPixelColor | code/utils/animation.py:61-62 | overwrites that light's colour, keeps every other light and the recorded frames |
| Animation.StripLogger.Show | code/utils/animation.py:64-65 | appends the current pixels as a new frame and leaves the pixels as they are |
| Animation.StripLogger.WriteRows | code/utils/animation.py:75-84 | one row per recorded frame, in order, row i built from frame i |
| Animation.Cell | code/utils/animation.py:79-82 | each light contributes exactly three values |
| Animation.CellsShape | code/utils/animation.py:78-82 | the cells of lights 0..n-1 are 3n values, and light i's three sit at 3i |
| Animation.RowShape | code/utils/animation.py:77-84 | a row has 1 + 3 * count fields: the frame index first, then every light's three values in id order |
| Animation.BackOfTreeDefault | code/utils/animation.py:43-45 | with the default threshold a light is at the back exactly when y < -100; the threshold is strict |
| Animation.Fill | code/utils/animation.py:121-126 | every light in [0, numPixels) gets the colour, no other light changes, no frame is added |
| Animation.ScaledCoord | code/utils/animation.py:99-109 | the coordinate built from line i carries id i |
| Animation.ReadScaled | code/utils/animation.py:103-109 | fails exactly when some line is not three numbers; otherwise ids are exactly 0..len-1, each the scaled line |
| Animation.ReadCoordinates | code/utils/animation.py:87-117 | succeeds exactly when the file is non-empty (the closing summary takes min of no values otherwise) and every line parses; light i is line i scaled by 500 |
| AnimationUtils.ReadCoordinates | code/animation_utils.py:101-126 | the header line is dropped; succeeds exactly when every later line parses; ids are 0..n-2 and light i is line i+1 scaled by 500 |
| GenerateUtils.NormalizeToCenter | animations/generate/animation_utils.py:64-68 | three components, the height unchanged |
| GenerateUtils.DenormalizeFromCenter | animations/generate/animation_utils.py:71-75 | three components, the height unchanged |
| GenerateUtils.CenterRoundTrip | animations/generate/animation_utils.py:64-75 | the two shifts undo each other in both orders |
| GenerateUtils.SameCentreAsScan | animations/generate/animation_utils.py:64-68 | the shift agrees with the one of the scan reconstruction |
| GenerateUtils.BackOfTreeBoundary | animations/generate/animation_utils.py:78-80 | a light is at the back exactly below image y 400, and 400 itself is the front |
| GenerateUtils.Wheel | animations/generate/animation_utils.py:42-51 | the three components always add up to 255 |
| GenerateUtils.WheelRange | animations/generate/animation_utils.py:42-51 | for positions in 0..255 every component stays within 0..255 |
| GenerateUtils.WheelAgreesOnIntegers | animations/generate/animation_utils.py:42-51 | on whole positions it equals the wheel of the colour utilities |
| GenerateUtils.ReadEntries | animations/generate/animation_utils.py:151-154 | fails exactly when some line is not four integers; otherwise the result is the id table of all lines |
| GenerateUtils.ReadCoordinates | animations/generate/animation_utils.py:143-158 | the header is dropped; fails exactly when a later line is malformed; otherwise the id table of the remaining lines |
| GenerateUtils.IdTableSpec | animations/generate/animation_utils.py:151-154 | the table's keys are exactly the ids that occur on some line |
| GenerateUtils.IdTableLastWins | animations/generate/animation_utils.py:152-154 | an id maps to the (x, y, z) of the last line carrying it |
| TreeHeroPrototype.LaneX | code/tree_hero.py:41-42 | lane n's column is 32 + 64n |
| TreeHeroPrototype.Actor.constructor | code/tree_hero.py:34-46 | a new note sits at the top of its lane's column, in the lane's colour, unmarked |
| TreeHeroPrototype.Actor.Update | code/tree_hero.py:48-55 | the note falls by dy; it becomes marked once below 500 and stays marked; it shows the press colour exactly while both arrows are held |
| TreeHeroPrototype.SurvivorsSpec | code/tree_hero.py:16-21 | the survivors are exactly the elements that are not dead, and survivors plus dead account for the whole list |
| TreeHeroPrototype.RemoveFirst | code/tree_hero.py:20 | list.remove needs the element present and removes one element |
| TreeHeroPrototype.RemoveNextDead | code/tree_hero.py:19-20 | the next dead note is still in the list, and list.remove of it removes that note and no other |
| TreeHeroPrototype.WithoutAllDead | code/tree_hero.py:17-20 | removing every dead note leaves the survivors in order |
| TreeHeroPrototype.DeadNotesAgree | code/tree_hero.py:17 | the comprehension picks, in order, the notes that are marked |
| TreeHeroPrototype.Lane.constructor | code/tree_hero.py:7-10 | a new lane has no notes |
| TreeHeroPrototype.Lane.AddNote | code/tree_hero.py:12-14 | appends one fresh unmarked note of that lane |
| TreeHeroPrototype.Lane.Cleanup | code/tree_hero.py:16-21 | the lane keeps exactly its unmarked notes, in their order |
| HeroNote.Updated | code/treehero/note.py:24-46 | the note moves by exactly dy |
| HeroNote.UpdateSpec | code/treehero/note.py:24-46 | marked for removal exactly when it ends below 500; hit exactly when hittable, key held and 485 < y <= 500; the miss colour is never set; hittable only changes above the hit box |
| HeroNote.MarksStay | code/treehero/note.py:28-40 | no sequence of frames ever clears either mark |
| HeroNote.Note.Update | code/treehero/note.py:24-48 | the note's new state is the one Updated gives |
| Inputs.KbInput | code/treehero/inputs.py:34-36 | a keyboard input with the keyboard id and the key as button |
| Inputs.JbInput | code/treehero/inputs.py:30-32 | a controller input with the given controller id and button |
| Inputs.IsPressedSpec | code/treehero/inputs.py:24-28 | a controller input never reads as pressed; a keyboard input exactly when its key is down |
| Inputs.FromEventRoundTrip | code/treehero/inputs.py:38-43 | an input exactly for key and button presses, naming that press; every input comes back from its own event |
| Inputs.IsSelectKeySpec | code/treehero/inputs.py:51-55 | Return on the keyboard and button 0 on a controller, both directions |
| Settings.Settings.constructor | code/treehero/settings.py:30-32 | five default fret keys and two default strum keys |
| Settings.Settings.Load | code/treehero/settings.py:55-70 | the bindings are those the file's document gives, or the defaults |
| Settings.LoadFallsBack | code/treehero/settings.py:58-70 | no file, an unreadable file or a document without keys gives the defaults |
| Settings.Settings.BindFretInput | code/treehero/settings.py:34-35 | succeeds exactly for an index in -len..len-1 and then replaces exactly the indexed fret key (negative indices from the end); otherwise (IndexError) nothing changes; strum keys unchanged |
| Settings.Settings.BindStrumInput | code/treehero/settings.py:37-38 | as written: for an index in range replaces a fret key, otherwise (IndexError) changes nothing; the strum keys are never changed |
| Settings.Settings.BindStrumInputIntended | code/treehero/settings.py:37-38 | succeeds exactly for an index in range and then replaces exactly the indexed strum key; otherwise (IndexError) nothing changes; fret keys unchanged |
| Settings.StrumBindingExample | code/treehero/settings.py:37-38 | binding strum 0 on fresh settings rebinds fret 0 and keeps both default strum keys |
| Settings.IntendedStrumBindingExample | code/treehero/settings.py:37-38 | the corrected binding changes strum 0 only |
| Settings.PyIndex | code/treehero/settings.py:35 | Python list indexing: in range, a negative index counting from the end |
| Settings.Settings.Dict | code/treehero/settings.py:49-53 | exactly the two lists, each input saved in order |
| Settings.AsDicts | code/treehero/settings.py:51-52 | one record per input, in order |
| Settings.FromRecords | code/treehero/settings.py:65-66 | succeeds exactly when every record is an input, reading them in order |
| Settings.RecordRoundTrip | code/treehero/settings.py:51-65 | a saved input reads back as itself |
| Settings.RecordsRoundTrip | code/treehero/settings.py:51-66 | a saved list reads back in order |
| Settings.SaveLoadRoundTrip | code/treehero/settings.py:49-66 | loading what the settings save gives back the same bindings |
| RunAnimation.WindowConcat | code/s5_run_animation.py:26-28 | the windows put back together give the list unchanged |
| RunAnimation.WindowCount | code/s5_run_animation.py:26-28 | the number of windows is the length divided by the step, rounded up; none exactly for an empty rest |
| RunAnimation.WindowSlices | code/s5_run_animation.py:26-28 | window k is the slice starting at k times the step; every window is non-empty, at most the step long, and all but the last exactly that long |
| RunAnimation.Swap | code/s5_run_animation.py:49-50 | the first two channels change places and the third stays |
| RunAnimation.SwapInvolution | code/s5_run_animation.py:49-50 | swapping twice gives the colour back; a colour is unchanged exactly when red equals green |
| RunAnimation.ReadRow | code/s5_run_animation.py:44-50 | reading one row light by light gives the frame ParseRow describes |
| RunAnimation.ParseLedsFails | code/s5_run_animation.py:48-50 | once one light fails to parse, the whole row fails |
| RunAnimation.ReadAnimation | code/s5_run_animation.py:31-55 | fails exactly when some row fails; otherwise one frame per row, in order, each the row's parse |
| RunAnimation.ReadFrames | code/s5_run_animation.py:40-53 | the row loop for any row reader: fails exactly when some row fails, otherwise frame i is row i's parse |
| RunAnimation.Strings | code/utils/animation.py:84 | the CSV writer turns each value into one field |
| RunAnimation.StringsAt | code/utils/animation.py:84 | field i is the decimal text of value i |
| RunAnimation.TripleWindows | code/s5_run_animation.py:47 | a row of 3n values gives n windows, window k holding values 3k..3k+2 |
| RunAnimation.ParseLedText | code/s5_run_animation.py:50 | three written numbers read back as that colour with red and green swapped |
| RunAnimation.TextWindow | code/s5_run_animation.py:44-47 | after the frame number, window k of a written row holds the text of that light's three values |
| RunAnimation.LedText | code/s5_run_animation.py:44-47 | window k of a written row holds light k's cell as text |
| RunAnimation.LedReadsBack | code/s5_run_animation.py:47-50 | light k of a written row reads back as its colour with red and green swapped |
| RunAnimation.WrittenRowParts | code/s5_run_animation.py:44-50 | a written row starts with its frame index and each of its windows reads back as its light |
| RunAnimation.WrittenRowReadsBack | code/s5_run_animation.py:40-53 | a row the logger writes always reads back, as count lights, light i being frame i's colour swapped |
| RunAnimation.ParsedPrefix | code/s5_run_animation.py:48-50 | when every window parses, the lights are read in order |
| Tree.LeftOfProperties | code/treehero/tree.py:148-153 | a point on the line is not left of it; reversing the line negates the cross product, so no point is left of both directions |
| Tree.RatioBounds | code/treehero/tree.py:155-157 | the ratio is 0 at the top of the tree, 1 at height 0 and within [0, 1] in between |
| Tree.Anchors | code/treehero/tree.py:164-170 | five anchors, anchor i at x = int(min_x + delta_x * (i + 1)) on the ground with id -1 |
| Tree.AnchorsSpread | code/treehero/tree.py:164-170 | the anchors run left to right within [min_x, max_x] and the last one is at max_x |
| Tree.AnchorAtMax | code/treehero/tree.py:167-170 | the fifth step lands exactly on max_x |
| Tree.LaneFromSpec | code/treehero/tree.py:175-184 | the lane is the first anchor whose line has the light on its left; the last lane when there is none |
| Tree.FindLane | code/treehero/tree.py:176-184 | the inner loop with its break gives that lane |
| Tree.AssignmentsKeys | code/treehero/tree.py:173-186 | every light gets a bucket and only lights get one |
| Tree.AssignmentsSpec | code/treehero/tree.py:175-186 | every bucket's lane is one of the anchors', and a light's bucket is its lane with its height ratio, the last entry of an id winning |
| Tree.GetLaneAssignments | code/treehero/tree.py:159-186 | the assignment loop computes the buckets Assignments describes |
| Tree.MinOf | code/treehero/tree.py:78 | min() of a non-empty list: an element no greater than any other |
| Tree.MaxOf | code/treehero/tree.py:82 | max() of a non-empty list: an element no smaller than any other |
| Tree.HighestCoord | code/treehero/tree.py:83 | max(key=z): the first light of the tree at the greatest height |
| Tree.Tree.constructor | code/treehero/tree.py:75-87 | the greatest height, the point above the tree, the lane assignments, and no notes or presses; every light has a bucket in one of five lanes |
| Tree.Tree.RegisterNote | code/treehero/tree.py:188-189 | appends one note; presses unchanged |
| Tree.Tree.RegisterFretPress | code/treehero/tree.py:191-193 | adds the lane only when pressed; notes unchanged |
| Tree.Tree.Render | code/treehero/tree.py:91-142 | the lit lights of the frame, after which notes and presses are cleared |
| Tree.LitSpec | code/treehero/tree.py:117-126 | only the tree's lights are lit; a light is lit exactly when it glows or sits in the target zone, and a dark light in the target zone shows its lane's pressed colour or grey |
| Song.NotesOnly | code/treehero/song.py:132 | only notes are kept, each taken from the track |
| Song.NotesOnlyAppend | code/treehero/song.py:132 | filtering works piecewise, keeping the order of the notes |
| Song.NotesOnlyKeepsNotes | code/treehero/song.py:132 | a track of notes is kept whole and a track without notes gives none |
| Song.GetGuitar | code/treehero/song.py:126-132 | None exactly when the difficulty has no instruments; KeyError exactly when it has some but no guitar; otherwise the guitar's notes |
| Song.DifficultiesSpec | code/treehero/song.py:104-123 | a difficulty is listed exactly when its notes are non-empty, easy before medium before hard before expert |
| Song.ConversionRoundTrip | code/treehero/song.py:72-81 | ms_to_ticks and ticks_to_ms undo each other in both orders |
| Song.TicksToMsNonNegative | code/treehero/song.py:77-81 | at a positive tempo and resolution, a non-negative tick count lasts a non-negative time |
| Song.PrevIndex | code/treehero/song.py:46 | the gap is measured from an event at or before the current one |
| Song.ComputeSyncTrack | code/treehero/song.py:40-57 | fails exactly when some BPM event's gap would be converted at a zero rate (a zero tempo at the event it measures from, or a zero resolution: ZeroDivisionError in ticks_to_ms); otherwise the loop computes the frames SyncFrames describes |
| Song.SyncFramesFollowBpm | code/treehero/song.py:44-55 | one frame per BPM event, in order, at its tick and with its tempo |
| Song.SyncTimesNonDecreasing | code/treehero/song.py:51-55 | on a track whose ticks never go back and whose tempos are positive, frame times start at 0 or later and never decrease |
| Song.IntendedCountsEveryGap | code/treehero/song.py:46-55 | with the previous event taken as i - 1, each frame's time is the previous one's plus the duration of the gap at the previous tempo |
| Song.AsWrittenDropsFirstGap | code/treehero/song.py:46 | as written, the second of two tempo changes a beat apart lands at 0 ms instead of 500 ms |
| Song.AllBpmPrefix | code/treehero/song.py:44-55 | a track of tempo changes only gives a frame per event |
| Song.SyncFramesPrefix | code/treehero/song.py:44-55 | later events only append frames |
| Song.LeadFrom | code/treehero/song.py:65-68 | the count of passed frames stays within the list |
| Song.SyncIndex | code/treehero/song.py:64-68 | the frame used is one of the frames |
| Song.ToTicks | code/treehero/song.py:59-70 | None on an empty sync track (IndexError on `sync_data[0]`); otherwise the loop with its break gives the ticks TicksAt describes |
| Song.LeadFromSpec | code/treehero/song.py:65-68 | every frame passed starts at or before t, and the frame that stops the loop starts after t |
| Song.TicksAtFrameStart | code/treehero/song.py:59-70 | with strictly increasing frame times, the start of a frame converts to exactly that frame's tick |
| Song.LeadFromSorted | code/treehero/song.py:65-68 | with strictly increasing frame times the loop stops right after the frame that starts at t |
| Song.NewTreeChart | code/treehero/song.py:21-31 | fails exactly when some difficulty has instruments but no guitar or the sync track cannot be converted; otherwise keeps name and resolution, the guitar notes of each difficulty and the sync frames |
| Manual.LedCoord.constructor | code/s3_manual.py:55-57 | a mutable coordinate holding the given value |
| Manual.LedCoord.MinusX | code/s3_manual.py:55-57 | x drops by 5, nothing else changes, and the same object is returned |
| Manual.LedCoord.PlusX | code/s3_manual.py:60-62 | x grows by 5, nothing else changes, and the same object is returned |
| Manual.LedCoord.MinusY | code/s3_manual.py:65-67 | y drops by 5, nothing else changes, and the same object is returned |
| Manual.LedCoord.PlusY | code/s3_manual.py:70-72 | y grows by 5, nothing else changes, and the same object is returned |
| Manual.LedCoord.MinusZ | code/s3_manual.py:75-77 | z drops by 5, nothing else changes, and the same object is returned |
| Manual.LedCoord.PlusZ | code/s3_manual.py:80-82 | z grows by 5, nothing else changes, and the same object is returned |
| Manual.Moved | code/s3_manual.py:55-82 | only the chosen axis changes, by exactly d, and the id stays |
| Manual.Press | code/s3_manual.py:143-159 | a press moves the selected light along its mode's axis by the mode's step |
| Manual.DownUndoesUp | code/s3_manual.py:143-159 | in every mode the down table undoes the up table, and up moves +5 or, in a mirrored mode, -5 |
| Manual.Adjust | code/s3_manual.py:188-195 | down wins over up; with neither held the light is unchanged |
| Manual.ModeKeysSpec | code/s3_manual.py:170-176 | x, y and z switch to their axis; a second press of x, y or z flips to the other mode of that axis, and a third back |
| Manual.NextLed | code/s3_manual.py:181-183 | the next selection is always a valid light index |
| Manual.PrevLed | code/s3_manual.py:184-186 | the previous selection is always a valid light index, Python's % keeping it non-negative |
| Manual.SelectionCycles | code/s3_manual.py:181-186 | next and previous undo each other; the last light wraps to the first and back |
| Manual.WrapAround | code/s3_manual.py:181-186 | from a light in range, next adds one except at the last light and previous subtracts one except at the first |
| Manual.HandleEvents | code/s3_manual.py:165-186 | the event loop ends in the mode, selection and exit AfterEvents describes |
| Manual.SelectionStaysInRange | code/s3_manual.py:165-186 | whatever the events, the selection stays a valid light index, and without a selection key it stays where it was |
| Manual.Sign | code/s3_manual.py:206-207 | -1, 0 or 1 exactly by the sign of the value |
| Manual.StickSpec | code/s3_manual.py:263-273 | with the 0.5 thresholds a stick is pressed exactly at 0.5 or beyond on its own side |
| Manual.ColorTree | code/s3_manual.py:329-346 | one colour for every light |
| Manual.ColorTreeSpec | code/s3_manual.py:329-346 | white for the selected light; green within 5 on the mode's axis; red 5..150 below; blue 5..150 above; off otherwise, each both ways |
| ImageProcessing.Darkened | image_processing.py:29-31 | a pixel below 150 becomes 0 and any other keeps its value |
| ImageProcessing.DarkenedIdempotent | image_processing.py:25-32 | darkening twice is darkening once, and every pixel left is black or at least 150 |
| ImageProcessing.DarkPixelsToBlack | image_processing.py:25-32 | the image is darkened in place, pixel by pixel, and the same array is returned; an image without rows raises |

## Left out

- Camera capture, the LED strip driver, gRPC clients and servers, and file reading and writing are left out. Readers take the file's lines (`RunAnimation.ReadAnimation` takes the CSV reader's rows); writers return their rows.
- `ShotTable.ParseDataFile`: `json.loads` of a line and the `int()` of its five fields are the parameter `RecordDecoder`, which gives no record where either raises; the JSON grammar and `int()` of floats and numeric strings are not modelled. The `rstrip` before decoding is left to the decoder, since `json.loads` ignores trailing whitespace.
- The bright-spot detection (OpenCV blur and minMaxLoc in `code/s2_image_processing.py`) is left out; its detections are the pipeline's input.
- SciPy's rotation about the vertical axis is a parameter of the diagonal passes, `Rotation`, followed by an exact `int()` truncation. Rotation matrices and float trigonometry (`percent_off_true`, `atan2`) are not modelled.
- The NumPy percentile of the outlier filter is a parameter; the histogram plot around it (matplotlib) is left out.
- `Coords.Distance2`: distances are compared squared, which is equivalent to comparing `math.sqrt` for the non-negative limits the filter uses. The float square root itself is not modelled.
- `extract_z`, used by both scan passes (`ScanSquareCoord` and `ScanDiagonalCoord`), is a float heuristic over the shots and is a parameter, `HeightRule`.
- Floating-point rounding is not modelled: floats are exact reals throughout.
- `Text.ParseInt` accepts only surrounding whitespace, an optional sign and ASCII digits. The underscores between digits (`int("1_0") == 10`) and the non-ASCII decimal digits that `int()` also accepts give None.
- `Text.ParseDecimal` accepts only an optional sign, ASCII digits and an optional fraction. The exponents (`"5e-05"`), `inf`, `nan` and underscores that `float()` also accepts give None, so `Animation.ReadCoordinates` fails on such a line where Python would read it.
- `NetworkConst.RgbFromJson` reads its text with `Text.ParseInt`: for text such as `"1_0"`, which `RGB.from_json` decodes as 10, the model gives None.
- `Animation.ReadCoordinates`: the regular-expression check on each line only logs and is not modelled; a line that does not split into three plain decimal numbers (as `Text.ParseDecimal` reads them) fails the read.
- The closing log line of `read_coordinates` is modelled only through its effect: on an empty file its `min()` raises.
- `Normalization.NormalizeCoordinates` returns the normalised map of reals instead of writing floats into the caller's integer map.
- `Tree.Tree.Render`: the brightness near a note is a sigmoid in floating point and is the parameter `Glow`. The conversion of a lane colour by `pygame.Color.lerp`, the gRPC request and the local drawing are not modelled.
- The `Tree` singleton (`init`, `get_tree`, `close`) is left out.
- `Tree.Tree.constructor` requires at least one coordinate and a greatest height other than 0. Without a coordinate, the `min()` at `code/treehero/tree.py:78` raises ValueError. With a greatest height of 0, `get_ratio` (`code/treehero/tree.py:157`) raises ZeroDivisionError while the lanes are assigned. A Dafny constructor cannot fail, so these two exceptions are left out rather than modelled.
- Chart files are parsed by the chparse library, which is not part of this model; a chart is given as its instruments and sync track. The `Song` record and the folder scanning of `load_chart` are not modelled.
- pygame drawing, sprites, the screen loops of `code/s3_manual.py`, `any_pressed` and the joystick enumeration are left out. Key names (`__str__`) and the screen layout functions are left out too.
- `Manual.Adjust` takes whether the down and up controls are held as two booleans.
- `HeroNote.Note.Update` and `TreeHeroPrototype.Actor.Update` take the integer move the sprite's rectangle makes in one frame; `note_speed * dt` is not modelled. The lane key is the boolean `keyHeld`.
- The constructors of `code/treehero/note.py` refer to an undefined `lane_padding` and are not modelled; only `update` is.
- The miss colour branch of `Note.update` cannot be taken with the game's constants (a note past the end of the hit box at 515 is already past the removal line at 500, which is checked first). The model proves it unreachable rather than modelling its effect.
- `TreeHeroPrototype.Lane.Cleanup`: removal from the pygame sprite group is not modelled.
- `Settings.FromRecords` is stricter than `ControlInput(**c)`. It rejects a source other than the two names and values of the wrong JSON type, which the dataclass would accept without checking.
- The identical copies in `code/animation_utils.py` and `animations/generate/animation_utils.py` are modelled once:
  - `Coord.with_*` by `Coords`;
  - `is_back_of_tree` with a threshold by `Animation`;
  - `fill` by `Animation.Fill`;
  - `_lerp` and `to_blended_color` by `Colors`;
  - the generator's `StripLogger` by `Animation.StripLogger.WithFixedWidth`. Its rows always cover 500 lights.
- `rotate` in `code/utils/animation.py` and `animations/generate/animation_utils.py` uses SciPy and is left out; the centring shifts around it are modelled.
- `RunAnimation.ReadAnimation` reads rows already split by the CSV reader; quoting and the reader itself are not modelled. `fill` and `play_animation` drive the strip and are left out.
- The animation-generation scripts (`animations/generate/*.py` other than the utilities, `code/s4_test_animations.py`, `code/s5_snow.py`) and `code/utils/visualize.py` are left out. They blend float colours frame by frame, or they plot.
- The JSON text of `code/network/const.py` and `code/treehero/settings.py` is not modelled; the documents `json.dumps` writes and `json.loads` reads are.
- The Frame and Packet messages are modelled only as the list of entries `make_packet` builds.
- `code/utils/continuation.py` and the `argparse` entry points are left out.

## Findings

| source | as written | input that shows it | evidently intended | confidence | as-written member | corrected member |
|---|---|---|---|---|---|---|
| code/s3_coordinate_processing.py:208-209 | divides every axis by the signed value of largest magnitude among min/max x and y | two lights left of the centre, at x = 0 and x = 100 with y = 545 and z 0 and 10: the divisor is -535, so the left light is moved to the right and heights become negative | divide by the magnitude, keeping sides and making the lowest light height 0 | medium, not executed | Normalization.NegativeDivisorFlips | Normalization.NormalizedByMagnitudeSpec |
| code/utils/coords.py:37-40 | `Coord3d.from_json` builds a `Coord2d` from the attributes | the JSON of any Coord3d: it has z and lacks angle and b, so the constructor raises | build a `Coord3d`, so that a coordinate's JSON loads back | high, not executed | Coords.Coord3dFromJsonRejectsOwnJson | Coords.Coord3dRoundTrip |
| code/treehero/song.py:46 | takes the previous event only when `i - 1 > 0`, so event 1 measures its gap from itself | tempo changes at ticks 0 and 192 with resolution 192 and 120 BPM: the second frame lands at 0 ms instead of 500 ms | `i - 1 >= 0` (equivalently `i > 0`), so each gap counts | high, not executed | Song.AsWrittenDropsFirstGap | Song.IntendedCountsEveryGap |
| code/treehero/settings.py:37-38 | `bind_strum_input` assigns into the fret keys | binding strum 0 on new settings replaces fret 0 and leaves both strum keys | assign into `strum_keys` | high, not executed | Settings.StrumBindingExample | Settings.IntendedStrumBindingExample |
