# JCloisterZone rules-engine core, modelled in Dafny

This project models three small pieces of the rules engine of JCloisterZone, a
tile-placement board game:

- **TileFeature place lists** (module `TileFeatures`, file `tile_feature.dfy`). A feature is an
  immutable region descriptor. It holds an ordered list of feature pointers and a handle of its
  game. `mergePlaces` concatenates the place lists of two features. `placeOnBoardPlaces` maps every
  pointer through a rotation and then a translation.
- **Capability extension protocol** (module `Capabilities`, file `capability.dfy`). An expansion's
  capability overrides some hooks and inherits the defaults for the rest. The model is a datatype
  whose optional hook fields are `None` where the default applies. The default hooks are identities
  or constants. The two follower-action helpers are methods with loops. `findFollowerActions`
  filters a list of player actions. `findAndFillFollowerActions` appends, in place, a meeple action
  for every follower type in supply that has none yet.
- **Phase state-machine node** (module `Phases`, file `phase.dfy`). `Phase` and `Game` are classes.
  A phase has the mutable fields `entered` and `defaultNext`. `next()` and `next(Class)` move the
  game's current-phase pointer. Every player-action adapter reports an illegal state and changes
  nothing. The exceptions are `payRansom`, which needs a tower capability, and `chatMessage` and
  `undo`, which are legal in every phase.

`board.dfy` (module `Board`) gives the coordinates these use: positions, quarter-turn rotations,
tile locations and feature pointers. The feature-pointer class is not part of this model. Its
`rotateCW` and `translate` are written here as concrete arithmetic. `rotateCW` turns both the
position (about the origin, with y growing southwards) and the location, by whole quarter turns.
`translate` adds the offset to the position.

Illegal actions are reported as a returned `Outcome` (`IllegalState(name)`), not as log output.
The game's own classes are not part of this model; the calls a phase makes into them are
abstracted as follows. `setPhase` is a plain store into the game's `phase` field. The phase-table
lookup (`getPhases().get`) and the tower-capability lookup (`getCapability`) are reads of the
fields `phases` and `towerCapability`. The game's undo, the tower capability's ransom payment and
posting an event are methods that record each call in a field. The author lookup
(`getPlayer`) of a chat message is dropped: a chat event holds the author's raw index.

## Model

| member | source | states |
|---|---|---|
| `Board.RotateCW` | src/main/java/com/jcloisterzone/feature/TileFeature.java:53-55 | turning by R0 changes nothing; a turn keeps the pointer's distance from the origin and keeps the centre at the centre |
| `Board.Translate` | src/main/java/com/jcloisterzone/feature/TileFeature.java:53-55 | translation keeps the location on the tile; translating by the origin changes nothing |
| `Board.RotateInverse` | src/main/java/com/jcloisterzone/feature/TileFeature.java:53-55 | turning by a rotation and then by its inverse gives back the pointer |
| `Board.TranslateInverse` | src/main/java/com/jcloisterzone/feature/TileFeature.java:53-55 | translating by an offset and then by its negation gives back the pointer |
| `TileFeatures.ConstructedFeature` | src/main/java/com/jcloisterzone/feature/TileFeature.java:19-31 | `getPlaces` and `getGame` give back exactly the list and the game the feature was built with |
| `TileFeatures.MergePlaces` | src/main/java/com/jcloisterzone/feature/TileFeature.java:49-51 | its length is the length of `this.places` plus that of `obj.places`; `this.places` is its prefix and `obj.places` the matching suffix; both operands are values and stay as they were |
| `TileFeatures.MergeAssociative` | src/main/java/com/jcloisterzone/feature/TileFeature.java:49-51 | merging three features gives the same list whichever pair is merged first |
| `TileFeatures.PlacePointers` | src/main/java/com/jcloisterzone/feature/TileFeature.java:54 | the list map keeps the length, and element i is pointer i rotated then translated |
| `TileFeatures.PlaceOnBoardPlaces` | src/main/java/com/jcloisterzone/feature/TileFeature.java:53-55 | keeps the length of `places`; element i is `translate(rotateCW(places[i], rot), pos)`, rotation before translation |
| `TileFeatures.LiftPointers` | src/main/java/com/jcloisterzone/feature/TileFeature.java:53-55 | the inverse map keeps the length, and element i is pointer i translated back then turned back |
| `TileFeatures.PlaceThenLift` | src/main/java/com/jcloisterzone/feature/TileFeature.java:53-55 | placing loses nothing: lifting the placed list back gives the feature's places |
| `TileFeatures.PlaceAtOriginUnturned` | src/main/java/com/jcloisterzone/feature/TileFeature.java:53-55 | placed at the origin without turning, the places are unchanged |
| `TileFeatures.PlaceDistributesOverMerge` | src/main/java/com/jcloisterzone/feature/TileFeature.java:49-55 | placing a merged place list equals merging the placed lists |
| `Capabilities.Backup` | src/main/java/com/jcloisterzone/game/Capability.java:41-43 | by default `backup` gives none (`null`, "no state to persist"); any state it gives comes from an override |
| `Capabilities.InitTile` | src/main/java/com/jcloisterzone/game/Capability.java:77-79 | by default the tile definition comes back unchanged |
| `Capabilities.InitFeature` | src/main/java/com/jcloisterzone/game/Capability.java:81-83 | by default the feature comes back unchanged |
| `Capabilities.IsDeployAllowed` | src/main/java/com/jcloisterzone/game/Capability.java:146-148 | by default deployment is allowed for every tile and meeple type |
| `Capabilities.IsTilePlacementAllowed` | src/main/java/com/jcloisterzone/game/Capability.java:162-164 | by default placement is allowed for every tile and position |
| `Capabilities.DefaultInitTileFold` | src/main/java/com/jcloisterzone/game/Capability.java:77-79 | folding `initTile` over any number of capabilities that keep the default leaves the tile unchanged |
| `Capabilities.DefaultInitFeatureFold` | src/main/java/com/jcloisterzone/game/Capability.java:81-83 | folding `initFeature` over any number of capabilities that keep the default leaves the feature unchanged |
| `Capabilities.InitTileFoldOrder` | src/main/java/com/jcloisterzone/game/Capability.java:77-79 | the `initTile` chain follows registration order: later capabilities transform what earlier ones produced |
| `Capabilities.InitTileMarkerOrder` | src/main/java/com/jcloisterzone/game/Capability.java:77-79 | two capabilities that each append a marker, registered A then B, produce the markers in the order "AB" |
| `Capabilities.FollowerActions` | src/main/java/com/jcloisterzone/game/Capability.java:105-116 | the filter is no longer than its input; every element is a follower meeple action; an action is in it exactly when it is in the input and is a follower meeple action |
| `Capabilities.FollowerActionsSnoc` | src/main/java/com/jcloisterzone/game/Capability.java:107-114 | scanning one more action adds that action to the result exactly when it is a follower meeple action |
| `Capabilities.FollowerActionsAppend` | src/main/java/com/jcloisterzone/game/Capability.java:105-116 | the filter distributes over concatenation, so the original order is kept |
| `Capabilities.FollowerActionsOfFollowerActions` | src/main/java/com/jcloisterzone/game/Capability.java:105-116 | a list made only of follower meeple actions passes the filter whole |
| `Capabilities.FindFollowerActions` | src/main/java/com/jcloisterzone/game/Capability.java:105-116 | the loop returns exactly the follower meeple actions of `actions` in their original order; `actions` is a value and is not changed |
| `Capabilities.CollectTypes` | src/main/java/com/jcloisterzone/game/Capability.java:121-124 | the `hasAction` set holds exactly the meeple types of the found follower actions |
| `Capabilities.Appended` | src/main/java/com/jcloisterzone/game/Capability.java:126-132 | at most one action is appended per follower scanned |
| `Capabilities.AppendedFresh` | src/main/java/com/jcloisterzone/game/Capability.java:126-132 | every appended action is a follower meeple action whose type had no action before, and no two appended actions are for the same type |
| `Capabilities.AppendedStep` | src/main/java/com/jcloisterzone/game/Capability.java:126-132 | one loop step: the follower is appended exactly when it is in supply and its type has no action yet, and its type then counts as having one; otherwise it is skipped |
| `Capabilities.AppendedFromSupply` | src/main/java/com/jcloisterzone/game/Capability.java:126-132 | every appended action is for the type of some follower in supply |
| `Capabilities.AppendedCoversSupply` | src/main/java/com/jcloisterzone/game/Capability.java:126-132 | every follower in supply has its type in `hasAction` or appended |
| `Capabilities.AppendedNothingWhenCovered` | src/main/java/com/jcloisterzone/game/Capability.java:126-132 | when every in-supply follower type already has an action, nothing is appended |
| `Capabilities.FindAndFillFollowerActions` | src/main/java/com/jcloisterzone/game/Capability.java:119-135 | the caller's list becomes the old list followed by the appended actions, so it only grows and the old list is its prefix; the returned list is the follower actions of the old list followed by the same appended actions |
| `Capabilities.FillCoversSupply` | src/main/java/com/jcloisterzone/game/Capability.java:119-135 | after the fill, every follower in supply has a meeple action of its type in the list |
| `Capabilities.FillAddsOnlyMissingTypes` | src/main/java/com/jcloisterzone/game/Capability.java:126-132 | each appended action is a follower action whose type had no follower action before, so it was not in the list; no other appended action equals it (at most one per type) |
| `Capabilities.FillIdempotent` | src/main/java/com/jcloisterzone/game/Capability.java:119-135 | filling again after a fill appends nothing |
| `Capabilities.RemoveAll` | src/main/java/com/jcloisterzone/game/Capability.java:168 | removing occurrences never makes the string longer |
| `Capabilities.RemoveAllKeepsPrefix` | src/main/java/com/jcloisterzone/game/Capability.java:168 | a prefix in which no occurrence starts is kept as it is |
| `Capabilities.ToString` | src/main/java/com/jcloisterzone/game/Capability.java:166-169 | the display name is no longer than the class name |
| `Capabilities.ToStringStripsSuffix` | src/main/java/com/jcloisterzone/game/Capability.java:166-169 | a class named `<p>Capability`, where `p` holds no "Capability", displays as `p` |
| `Capabilities.TowerToString` | src/main/java/com/jcloisterzone/game/Capability.java:166-169 | the class `TowerCapability` displays as "Tower" |
| `Phases.Phase.constructor` | src/main/java/com/jcloisterzone/game/phase/Phase.java:41-43 | a new phase has its game set, is not entered and has no default successor |
| `Phases.Phase.SetEntered` | src/main/java/com/jcloisterzone/game/phase/Phase.java:45-51 | `isEntered` then gives the value just set; only `entered` changes |
| `Phases.Phase.SetDefaultNext` | src/main/java/com/jcloisterzone/game/phase/Phase.java:53-59 | `getDefaultNext` then gives the phase just set; only `defaultNext` changes |
| `Phases.Phase.Next` | src/main/java/com/jcloisterzone/game/phase/Phase.java:61-63 | the game's current phase becomes this phase's `defaultNext` (possibly none); nothing else changes |
| `Phases.Phase.NextTo` | src/main/java/com/jcloisterzone/game/phase/Phase.java:65-67 | the game's current phase becomes the phase registered under the class, or none when no phase is registered under it; nothing else changes |
| `Phases.Phase.IsActive` | src/main/java/com/jcloisterzone/game/phase/Phase.java:79-81 | a phase is active by default |
| `Phases.Phase.Pass` | src/main/java/com/jcloisterzone/game/phase/Phase.java:108-110 | reports an illegal "pass" and changes nothing |
| `Phases.Phase.PlaceTile` | src/main/java/com/jcloisterzone/game/phase/Phase.java:113-115 | reports an illegal "placeTile" and changes nothing |
| `Phases.Phase.DeployMeeple` | src/main/java/com/jcloisterzone/game/phase/Phase.java:118-120 | reports an illegal "deployMeeple" and changes nothing |
| `Phases.Phase.MoveFairy` | src/main/java/com/jcloisterzone/game/phase/Phase.java:123-125 | reports an illegal "moveFairy" and changes nothing |
| `Phases.Phase.PlaceTowerPiece` | src/main/java/com/jcloisterzone/game/phase/Phase.java:128-130 | reports an illegal "placeTowerPiece" and changes nothing |
| `Phases.Phase.PlaceTunnelPiece` | src/main/java/com/jcloisterzone/game/phase/Phase.java:133-135 | reports an illegal "placeTunnelPiece" and changes nothing |
| `Phases.Phase.UndeployMeeple` | src/main/java/com/jcloisterzone/game/phase/Phase.java:138-140 | reports an illegal "undeployMeeple" and changes nothing |
| `Phases.Phase.MoveDragon` | src/main/java/com/jcloisterzone/game/phase/Phase.java:143-145 | reports an illegal "moveDragon" and changes nothing |
| `Phases.Phase.PayRansom` | src/main/java/com/jcloisterzone/game/phase/Phase.java:148-157 | without a tower capability it reports an illegal "payRansom" and changes nothing; with one, in any phase, it hands the request to that capability and reports success |
| `Phases.Phase.UpdateSupportedExpansions` | src/main/java/com/jcloisterzone/game/phase/Phase.java:159-161 | reports an illegal "updateSupportedExpansions" and changes nothing |
| `Phases.Phase.TakePrisoner` | src/main/java/com/jcloisterzone/game/phase/Phase.java:165-167 | reports an illegal "takePrisoner" and changes nothing |
| `Phases.Phase.DeployBridge` | src/main/java/com/jcloisterzone/game/phase/Phase.java:170-173 | reports an illegal "deployBridge" and changes nothing |
| `Phases.Phase.DeployCastle` | src/main/java/com/jcloisterzone/game/phase/Phase.java:176-178 | reports an illegal "deployCastle" and changes nothing |
| `Phases.Phase.BazaarBid` | src/main/java/com/jcloisterzone/game/phase/Phase.java:181-183 | reports an illegal "bazaarBid" and changes nothing |
| `Phases.Phase.BazaarBuyOrSell` | src/main/java/com/jcloisterzone/game/phase/Phase.java:186-188 | reports an illegal "bazaarBuyOrSell" and changes nothing |
| `Phases.Phase.CornCiclesRemoveOrDeploy` | src/main/java/com/jcloisterzone/game/phase/Phase.java:191-193 | reports an illegal "cornCiclesRemoveOrDeploy" (the source's spelling) and changes nothing |
| `Phases.Phase.PlaceLittleBuilding` | src/main/java/com/jcloisterzone/game/phase/Phase.java:196-198 | reports an illegal "placeLittleBuilding" and changes nothing |
| `Phases.Phase.ChatMessage` | src/main/java/com/jcloisterzone/game/phase/Phase.java:201-203 | in every phase, appends a chat event with the author and message to the game's events; nothing else changes |
| `Phases.Phase.Undo` | src/main/java/com/jcloisterzone/game/phase/Phase.java:206-208 | in every phase, calls the game's undo exactly once; nothing else changes |
| `Phases.IllegalActionChangesNothing` | src/main/java/com/jcloisterzone/game/phase/Phase.java:143-145 | after a default handler, no field of the phase or of its game has changed |
| `Phases.DefaultNextTransition` | src/main/java/com/jcloisterzone/game/phase/Phase.java:57-63 | with `defaultNext` set to Y, entering and then calling `next()` makes Y the current phase; the phase table, tower capability, undo count and events stay as before |
| `Phases.RegisterThenNextTo` | src/main/java/com/jcloisterzone/game/phase/Phase.java:65-67 | once a phase is registered in the game's table, moving on to its class makes it the current phase; the other entries of the table, the tower capability, the undo count and the events are kept |

## Left out

- `FeaturePointer.rotateCW` and `translate` are not part of this model; the concrete arithmetic in `Board` is this model's own definition. Locations are reduced to the four edges and the centre; the game's finer locations (half-edges of farms and the like) are not modelled.
- `TileFeature.toString` prints the runtime class name followed by the places, and `Phase.toString` prints the simple class name. Neither is modelled; `PhaseClass` stands for a phase's class only as the key of the phase table.
- `TileFeature.getLocalizedNamefor` relies on Java reflection with an exception fallback; it is not modelled.
- The game handle of a feature is a plain id (`GameRef`); the game it refers to is not reachable from a feature.
- `Capability.restore` and the snapshot hooks (`saveToSnapshot`, `loadFromSnapshot` and the per-tile variants) work on XML documents and on private capability state; they are not modelled. The `xml` parameter of `initTile` and `initFeature` is dropped because the defaults ignore it. `initFeature` takes and returns any `Feature`; the model narrows it to `TileFeature`, on which the default is the identity as it is on every feature.
- The other default hooks of `Capability` (`handleEvent`, `extendFeatures`, `getTileGroup`, `createPlayerFollowers`, `createPlayerSpecialMeeples`, `begin`, `extendFollowOptions`, `prepareActions`, `postPrepareActions`, `scoreCompleted`, `turnCleanUp`, `turnPartCleanUp`, `finalScoring`) are empty bodies or constant results outside the named core; they are not modelled.
- `Capabilities.FindAndFillFollowerActions`: the followers of the active player, which the source reads from the game, are a parameter; the player and its figures are not part of this model.
- Java meeple classes become the enumeration `MeepleType`; the follower classes are the five listed there. Action objects carry only their meeple type, so two meeple actions of one type are equal in the model; object identity and the options of an action are not modelled.
- `Capabilities.RemoveAll` models `String.replace` with an empty replacement only; other replacements do not occur in the core.
- `Phase.enter`, `notifyRansomPaid` and `loadGame` are empty bodies; `handleRandSample` and `handleFlierDice` take network messages. None of them is modelled.
- The tile pack, board, active-player and current-tile shortcuts of `Phase` and `Capability` only forward to the game; they are not modelled.
- The bodies of `Game.undo`, `Game.post` and `TowerCapability.payRansom` are not part of this model; each is a method that records that it was called.
- `Phases.Game.SetPhase`: `Game.setPhase` is modelled as a plain store into the `phase` field. Its real body is not part of this model, so the "nothing else changes" of `Phases.Phase.Next`, `Phases.Phase.NextTo` and the methods built on them holds for this store, not for whatever else the game does when its phase changes. Likewise `getPhases().get` and `getCapability(TowerCapability.class)` are modelled as reads of the fields `phases` and `towerCapability`.
- `Phases.Phase.ChatMessage`: `game.getPlayer(author)` is dropped. The chat event holds the author's raw index, so an index that names no player is not represented, and neither is what the game's lookup does with it.
- `Phases.TowerCapability.PayRansom`: its `modifies this` frame is an assumption of the recording method. The real ransom payment may change other game state (the players' scores and their figures), which this model does not capture; what callers may conclude about the game after a successful ransom rests on that frame.
- `Capabilities.Tile`: the placed tile that `isDeployAllowed` receives is reduced to its definition, its position and its rotation; the rest of the game's tile class is not part of this model.
- Logging is not modelled; an illegal action is reported by the returned `Outcome`.
