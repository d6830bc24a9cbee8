# Neural-network background and skill filter: a Dafny model

This project models the pure logic inside the page script `scripts/script.js`
of a static portfolio site. The script mostly creates DOM elements, sets
styles and wires timers and listeners. Five pieces of logic sit inside that
glue, and each is lifted here into functions over explicit inputs:

- **Skill filter** (`SkillFilter`): the set of active category keys. A click
  on a filter button toggles one key, the reset button clears the set, and a
  card is displayed when the set is empty or holds the card's category. The
  page state the handlers keep is modelled too: the key set, which buttons
  carry the pressed style, and which cards are displayed.
- **Network construction** (`Network`, `Geometry`): `createNeuralNetwork`.
  It places 20 nodes in the viewport and draws 25 node pairs, keeping a pair
  as a connection only when its two picks are different nodes. It then
  creates 12 data particles on random node pairs.
- **Data-particle tick** (`DataParticle`, `Network.TickAll`): the body of the
  30 ms position timer. Progress grows by 0.015 per tick. When it would reach
  1, the particle restarts on a newly drawn node pair at progress 0. The
  displayed position is the per-axis linear interpolation between the
  endpoints.
- **Pointer proximity** (`Proximity`): the `mousemove` handler of the
  network. A node closer than 150 px gets intensity `1 - d/150`, scale
  `1 + 0.8·intensity` and opacity `0.6 + 0.4·intensity`. Any other node
  returns to its default style.
- **Hero particles** (`HeroParticles`): the parameter ranges of the drifting
  particles, and the three-tier pointer parallax with its reset on leave.

Every `Math.random()` result is a parameter `u` with `0 <= u < 1`. The
viewport size and the pointer distances are parameters too. Coordinates,
progress and styles are Dafny `real`s, not IEEE doubles.

Three details follow the code exactly, where a looser reading is easy:

- The horizontal start of a hero particle lies in [0, 100), not [0, 100].
- A node at exactly the threshold distance gets the default style. The
  intensity formula is never evaluated there. `Proximity.Intensity` still
  shows that the formula gives 0 at that distance.
- After the tick that restarts a particle, the particle is displayed at its
  new start. The code interpolates again at progress 0.

The proofs show the following:

- Toggling a key twice restores the set.
- Which keys are active depends only on how often each key was clicked, not
  on the order of the clicks.
- Once the displayed cards and the pressed buttons agree with the active
  keys, they keep agreeing after any run of clicks, provided no two buttons
  share a key. The page as served starts in such a state when its markup
  shows every card and no pressed button.
- Without a reset, the key set after a run of button clicks is the set the
  clicked buttons toggle to.
- Progress stays in [0, 1).
- A traversal lasts exactly 67 ticks.
- Connections never join a node to itself. With one node there are none.
- There are exactly as many connections as pairs of draws that pick two
  different nodes, and each such pair contributes the connection between the
  two nodes it picked. In particular, every draw yields a connection exactly
  when no draw picks the same node twice.
- Closer nodes are drawn larger and more opaque.
- Whether a node is highlighted can be decided from the squared distance
  alone.
- Every hero-particle parameter in its range is produced by some draw.
- Off the centre, hero particles are translated alike exactly when they share
  a speed tier, and a faster tier moves farther.

## Model

| member | source | states |
|---|---|---|
| `SkillFilter.Toggle` | scripts/script.js:362-370 | the key is in the result exactly when it was not in the set before; every other key keeps its membership |
| `SkillFilter.Click` | scripts/script.js:359-371 | a button whose `data-skill-filter` is missing or empty leaves the set unchanged; otherwise its key flips and no other key changes |
| `SkillFilter.ClickTwiceRestores` | scripts/script.js:362-370 | clicking the same button twice gives back the original set |
| `SkillFilter.ClickAllParity` | scripts/script.js:358-373 | after any run of clicks, a key is active exactly when its initial activity was flipped an odd number of times |
| `SkillFilter.ApplyFilters` | scripts/script.js:347-356 | with no key active every card is displayed; otherwise a card is displayed exactly when its category is an active key |
| `SkillFilter.ShowsUnion` | scripts/script.js:352-355 | with keys active on both sides, a card is displayed under the union of two key sets exactly when either set alone displays it |
| `SkillFilter.UncategorisedShownOnlyUnfiltered` | scripts/script.js:353-354 | a card without a category is displayed exactly when no key is active |
| `SkillFilter.Reset` | scripts/script.js:375-376 | after reset every card, whatever its category, is displayed |
| `SkillFilter.Initial` | scripts/script.js:342-344 | the page as loaded, with no key active and, as assumed of the markup, every card displayed and no button pressed, agrees with the filter rule |
| `SkillFilter.Step` | scripts/script.js:358-382 | a filter click moves the key set as `Click` does; a click on a button without a usable key changes nothing; with a usable key the clicked button's pressed style follows its key's new activity, no other button changes, and the cards are re-filtered under the new set; a reset empties the key set, unpresses every button and displays every card; without a reset button a reset event changes nothing |
| `SkillFilter.RunFiltersAreClicks` | scripts/script.js:358-373 | without a reset, the key set after a run of button clicks is the key set the clicked buttons' keys toggle the starting set to |
| `SkillFilter.StepPreservesConsistency` | scripts/script.js:358-382 | with distinct button keys, every click keeps three facts true: displayed cards follow the filter rule, a button is pressed exactly when its key is active, and only button keys are active |
| `SkillFilter.RunKeepsConsistency` | scripts/script.js:342-382 | the same agreement holds after any run of clicks |
| `Geometry.PickIndex` | scripts/script.js:47-48 | `Math.floor(u * n)` for a draw in [0, 1) is a valid index below `n` |
| `Geometry.PickIndexReachesEvery` | scripts/script.js:47-48 | every index below `n` is selected by some draw |
| `Geometry.Spread` | scripts/script.js:30-31 | a drawn coordinate lies in [0, extent], and strictly below a positive extent |
| `Geometry.Lerp` | scripts/script.js:131-132 | interpolation gives the start at progress 0 and the end at progress 1, and lies between them for progress in [0, 1] |
| `Geometry.Interpolate` | scripts/script.js:126-132 | each axis is interpolated on its own; the result lies in the box spanned by the endpoints and equals the start at progress 0 |
| `DataParticle.Spawn` | scripts/script.js:84-98 | a new particle has valid progress and is displayed at its start node |
| `DataParticle.Position` | scripts/script.js:126-135 | a particle with progress in [0, 1) is displayed inside the box of its endpoints, and at progress 0 exactly at its start |
| `DataParticle.Tick` | scripts/script.js:108-124 | afterwards progress lies in [0, 1); if old progress plus 0.015 reaches 1 the particle restarts on the new pair at progress 0, otherwise progress rises by 0.015 and the endpoints stay |
| `DataParticle.RestartShowsFreshStart` | scripts/script.js:111-135 | on the tick that restarts a particle, it is displayed at the new start node |
| `DataParticle.RunAdvances` | scripts/script.js:106-137 | within a traversal, n ticks raise progress by exactly n steps and keep the endpoints |
| `DataParticle.TraversalTakesPeriodTicks` | scripts/script.js:106-137 | from progress 0, tick 66 leaves the particle on its endpoints at progress 0.99, and tick 67 restarts it on the pair drawn for that tick |
| `Network.PlaceNodes` | scripts/script.js:26-43 | one node per pair of draws, each inside the viewport |
| `Network.Picks` | scripts/script.js:47-48 | both picks of a pair of draws are valid node indices |
| `Network.Candidate` | scripts/script.js:47-52 | a pair of draws yields one connection exactly when its picks differ, and that connection joins two different nodes at their positions |
| `Network.Connections` | scripts/script.js:46-53 | there are exactly as many connections as pairs of draws whose two picks differ, hence at most one per pair; none joins a node to itself; with a single node there are none |
| `Network.KeptDrawConnects` | scripts/script.js:46-53 | every pair of draws whose picks differ contributes a connection that joins exactly the two nodes it picked, at their positions |
| `Network.CreateConnections` | scripts/script.js:46-53 | the loop computes the connections defined by `Connections`, at most one per draw, none a self-loop |
| `Network.AllDrawsConnectIff` | scripts/script.js:46-53 | every draw yields a connection exactly when no draw picks the same node twice; coinciding positions do not matter |
| `Network.Leg` | scripts/script.js:113-114 | a redrawn pair of endpoints consists of node positions |
| `Network.SpawnParticles` | scripts/script.js:55-58 | one particle per pair of draws, each at progress 0 with both endpoints on nodes |
| `Network.TickAll` | scripts/script.js:106-137 | each particle advances by the single-particle tick and is displayed at its interpolated position; valid progress and endpoints on nodes are kept |
| `Network.Build` | scripts/script.js:24-59 | a construction pass yields 20 nodes inside the viewport, at most 25 connections, and 12 particles displayed at their start nodes, all well formed |
| `Network.Advance` | scripts/script.js:106-137 | a tick applies the single-particle tick to every particle, with the pair drawn for it should it restart, and displays each at its interpolated position, between its endpoints; the population stays well formed and nodes and connections are untouched |
| `Proximity.Intensity` | scripts/script.js:165 | intensity is 1 at distance 0 and 0 at the threshold, and lies in (0, 1] below the threshold |
| `Proximity.IntensityStrictlyDecreasing` | scripts/script.js:165 | intensity strictly decreases with distance |
| `Proximity.StyleAt` | scripts/script.js:164-171 | a node is highlighted exactly when it is closer than 150; a highlight has scale in (1, 1.8] and opacity in (0.6, 1.0], and is (1.8, 1.0) at distance 0 |
| `Proximity.CloserIsBrighter` | scripts/script.js:164-167 | of two highlighted nodes, the closer one has the larger scale and opacity |
| `Proximity.HighlightIffSquaredWithin` | scripts/script.js:160-164 | a node is highlighted exactly when its squared distance to the pointer is below 150² |
| `Proximity.PointerMove` | scripts/script.js:152-173 | on a pointer move each node gets the style its own distance gives it; it is highlighted exactly when it is closer than 150, equivalently when its squared distance is below 150²; a highlight has scale in (1, 1.8] and opacity in (0.6, 1.0]; of two highlighted nodes the closer one is drawn larger and more opaque |
| `HeroParticles.Create` | scripts/script.js:258-275 | a particle's left is in [0, 100), top in [100, 200), delay in [0, 8), duration in [8, 12) and size in [2, 6) |
| `HeroParticles.DrawsFor` | scripts/script.js:258-273 | parameters within the ranges come from draws in [0, 1) |
| `HeroParticles.CreateCoversRanges` | scripts/script.js:258-273 | every parameter combination within the ranges is produced by some draws |
| `HeroParticles.CreateParticles` | scripts/script.js:253-279 | 25 particles are created, all with parameters in range |
| `HeroParticles.Percent` | scripts/script.js:286-288 | a pointer inside the container is at a percentage in [0, 100] along each axis |
| `HeroParticles.Speed` | scripts/script.js:292 | the parallax speed is 0.5, 1 or 1.5 for an index that leaves remainder 0, 1 or 2 when divided by 3 |
| `HeroParticles.SpeedTiers` | scripts/script.js:291-292 | two particles move at the same speed exactly when their indices agree modulo 3 |
| `HeroParticles.SpeedPeriodic` | scripts/script.js:292 | the speed tiers repeat every three particles |
| `HeroParticles.Offset` | scripts/script.js:292-294 | the offset is zero with the pointer at the centre, negative exactly when the pointer is left of or above the centre, and within ±7.5 px for a pointer inside the container |
| `HeroParticles.OffsetByTier` | scripts/script.js:292-294 | the translation is 0.05, 0.1 or 0.15 px per percent from the centre for an index with remainder 0, 1 or 2 modulo 3 |
| `HeroParticles.OffsetTiers` | scripts/script.js:291-294 | with the pointer off the centre, two particles are translated alike exactly when their indices agree modulo 3 |
| `HeroParticles.FasterTierMovesFarther` | scripts/script.js:292-294 | with the pointer off the centre, a particle of a faster tier is translated strictly farther |
| `HeroParticles.PointerMove` | scripts/script.js:285-298 | every particle is translated by its per-axis offset, within ±7.5 px, and by nothing with the pointer at the centre |
| `HeroParticles.SameTierSameOffset` | scripts/script.js:291-294 | particles three apart in creation order get the same translation |
| `HeroParticles.PointerLeave` | scripts/script.js:301-305 | leaving the container clears every particle's transform |

## Left out

- DOM work: creating and appending elements, inline styles, class lists and `dataset` strings. The `parseFloat` round trips through `dataset` are also left out. Button styling is a pressed/unpressed flag.
- Timers: the 30 ms and 1.5 s intervals, the 1 s clear of the node-activation pulse, the 100 ms hero start-up delay, the 500 ms retry and the `load` fallback with its double-construction guard. These concern host scheduling, not state.
- The node-activation pulse (`script.js:140-147`): it draws one node and adds and later removes a class. Nothing beyond the index draw of `Geometry.PickIndex` is left to state.
- The random source: every draw is a parameter in [0, 1). The animation-delay draws of nodes and connections (`script.js:39`, `script.js:78`) only style elements and are not modelled.
- Connection length and angle (`script.js:70-71`): they need `Math.sqrt` and `Math.atan2` and are purely presentational.
- The resize handler (`script.js:176-190`): it empties the containers and runs `createNeuralNetwork` again, which is `Network.Build` with the new viewport size.
- The missing-container guard of the animation (`script.js:17`): when the container is absent nothing happens, so there is nothing to model.
- Header shadow, the reveal observer, the footer year, the reduced-motion checks and console logging: page glue with no state logic.
- IEEE-754 behaviour: reals stand in for doubles. The traversal length of 67 ticks matches double arithmetic, since 66 steps of 0.015 stay far enough below 1 for rounding not to matter.
- Network.TickAll: each particle gets its own pair of draws for a possible restart. In the code, draws come from one stream and only restarting particles consume them. Any realisation of the stream corresponds to some such assignment.
- Proximity.PointerMove: the distances are inputs, tied to the node positions by their squares, because the model has no square root.
- HeroParticles.Percent: requires a container of positive extent along the axis. The code divides by both the width and the height (`script.js:287-288`), so the model needs a container of positive width and positive height. A pointer event over the container implies both, and the code does not guard either division.
- SkillFilter.StepPreservesConsistency: assumes no two filter buttons share a key. With a duplicate key, clicking one of the two buttons styles only that one, so the other button's pressed style disagrees with the key set. The markup this script serves is not part of this model.
- SkillFilter.Initial: the script never styles the cards or buttons at load. It starts from an empty key set and leaves the page as the markup serves it. `Initial` is the page with every card displayed and no button pressed, which is an assumption about that markup, and the markup is not part of this model.
