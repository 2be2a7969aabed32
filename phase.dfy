/** One node of the per-turn state machine. A phase has two mutable fields, whether it
    was entered and its default successor, and it moves the game's current-phase
    pointer. Every player action that a phase does not support is refused with an
    illegal-state report and changes nothing. */
module Phases {
  import opened Board
  import opened Capabilities

  /** The class of a phase, which the game uses as the key of its phase table. */
  datatype PhaseClass = PhaseClass(simpleName: string)

  /** What an action handler reports: it acted, or the action is illegal in this state. */
  datatype Outcome = Done | IllegalState(action: string)

  datatype ChatEvent = ChatEvent(author: int, message: string)

  datatype LittleBuilding = Shed | House | Tower

  /** The tower expansion's capability. Its own ransom logic is not part of this model;
      it records each request handed to it. */
  class TowerCapability {
    var ransomRequests: seq<(int, FollowerType)>

    constructor()
      ensures ransomRequests == []
    {
      ransomRequests := [];
    }

    method PayRansom(playerIndexToPay: int, meepleType: FollowerType)
      modifies this
      ensures ransomRequests == old(ransomRequests) + [(playerIndexToPay, meepleType)]
    {
      ransomRequests := ransomRequests + [(playerIndexToPay, meepleType)];
    }
  }

  /** The parts of the game a phase consults and changes. The game's own undo is not part
      of this model; `undoRequests` counts the calls made to it. */
  class Game {
    var phase: Phase?
    var phases: map<PhaseClass, Phase>
    var towerCapability: TowerCapability?
    var undoRequests: nat
    var events: seq<ChatEvent>

    constructor(towerCapability: TowerCapability?)
      ensures phase == null && phases == map[] && this.towerCapability == towerCapability
      ensures undoRequests == 0 && events == []
    {
      phase := null;
      phases := map[];
      this.towerCapability := towerCapability;
      undoRequests := 0;
      events := [];
    }

    method SetPhase(p: Phase?)
      modifies this`phase
      ensures phase == p
    {
      phase := p;
    }

    /** Registers `p` under its class in the phase table. */
    method Register(p: Phase)
      modifies this`phases
      ensures phases == old(phases)[p.phaseClass := p]
    {
      phases := phases[p.phaseClass := p];
    }

    method Undo()
      modifies this`undoRequests
      ensures undoRequests == old(undoRequests) + 1
    {
      undoRequests := undoRequests + 1;
    }

    method Post(e: ChatEvent)
      modifies this`events
      ensures events == old(events) + [e]
    {
      events := events + [e];
    }
  }

  class Phase {
    const game: Game
    const phaseClass: PhaseClass
    var entered: bool
    var defaultNext: Phase?

    /** A new phase knows its game; it is not entered and has no default successor. */
    constructor(game: Game, phaseClass: PhaseClass)
      ensures this.game == game && this.phaseClass == phaseClass
      ensures !entered && defaultNext == null
    {
      this.game := game;
      this.phaseClass := phaseClass;
      entered := false;
      defaultNext := null;
    }

    function IsEntered(): bool
      reads this
    {
      entered
    }

    method SetEntered(entered: bool)
      modifies this`entered
      ensures IsEntered() == entered
    {
      this.entered := entered;
    }

    function GetDefaultNext(): Phase?
      reads this
    {
      defaultNext
    }

    method SetDefaultNext(defaultNext: Phase?)
      modifies this`defaultNext
      ensures GetDefaultNext() == defaultNext
    {
      this.defaultNext := defaultNext;
    }

    /** Moves the game to this phase's default successor, which may be none. */
    method Next()
      modifies game`phase
      ensures game.phase == defaultNext
    {
      game.SetPhase(defaultNext);
    }

    /** Moves the game to the phase registered under `target`; the table's lookup gives
        none when no phase is registered under it. */
    method NextTo(target: PhaseClass)
      modifies game`phase
      ensures target in game.phases ==> game.phase == game.phases[target]
      ensures target !in game.phases ==> game.phase == null
    {
      var p := if target in game.phases then game.phases[target] else null;
      game.SetPhase(p);
    }

    function IsActive(): (r: bool)
      ensures r
    {
      true
    }

    // Adapters for the player actions: by default each is illegal in this state.

    method Pass() returns (r: Outcome)
      ensures r == IllegalState("pass")
    {
      r := IllegalState("pass");
    }

    method PlaceTile(rotation: Rotation, position: Position) returns (r: Outcome)
      ensures r == IllegalState("placeTile")
    {
      r := IllegalState("placeTile");
    }

    method DeployMeeple(p: Position, loc: Location, meepleType: MeepleType) returns (r: Outcome)
      ensures r == IllegalState("deployMeeple")
    {
      r := IllegalState("deployMeeple");
    }

    method MoveFairy(p: Position) returns (r: Outcome)
      ensures r == IllegalState("moveFairy")
    {
      r := IllegalState("moveFairy");
    }

    method PlaceTowerPiece(p: Position) returns (r: Outcome)
      ensures r == IllegalState("placeTowerPiece")
    {
      r := IllegalState("placeTowerPiece");
    }

    method PlaceTunnelPiece(p: Position, loc: Location, isSecondPiece: bool) returns (r: Outcome)
      ensures r == IllegalState("placeTunnelPiece")
    {
      r := IllegalState("placeTunnelPiece");
    }

    method UndeployMeeple(p: Position, loc: Location, meepleType: MeepleType, meepleOwner: int) returns (r: Outcome)
      ensures r == IllegalState("undeployMeeple")
    {
      r := IllegalState("undeployMeeple");
    }

    method MoveDragon(p: Position) returns (r: Outcome)
      ensures r == IllegalState("moveDragon")
    {
      r := IllegalState("moveDragon");
    }

    /** Legal in every phase when the tower capability is registered, and handed to it;
        without it, refused. */
    method PayRansom(playerIndexToPay: int, meepleType: FollowerType) returns (r: Outcome)
      modifies game.towerCapability
      ensures game.towerCapability == null ==> r == IllegalState("payRansom")
      ensures game.towerCapability != null ==>
        r == Done && game.towerCapability.ransomRequests
          == old(game.towerCapability.ransomRequests) + [(playerIndexToPay, meepleType)]
    {
      var towerCap := game.towerCapability;
      if towerCap == null {
        r := IllegalState("payRansom");
        return;
      }
      towerCap.PayRansom(playerIndexToPay, meepleType);
      r := Done;
    }

    method UpdateSupportedExpansions(expansions: set<string>) returns (r: Outcome)
      ensures r == IllegalState("updateSupportedExpansions")
    {
      r := IllegalState("updateSupportedExpansions");
    }

    method TakePrisoner(p: Position, loc: Location, meepleType: MeepleType, meepleOwner: int) returns (r: Outcome)
      ensures r == IllegalState("takePrisoner")
    {
      r := IllegalState("takePrisoner");
    }

    method DeployBridge(pos: Position, loc: Location) returns (r: Outcome)
      ensures r == IllegalState("deployBridge")
    {
      r := IllegalState("deployBridge");
    }

    method DeployCastle(pos: Position, loc: Location) returns (r: Outcome)
      ensures r == IllegalState("deployCastle")
    {
      r := IllegalState("deployCastle");
    }

    method BazaarBid(supplyIndex: int, price: int) returns (r: Outcome)
      ensures r == IllegalState("bazaarBid")
    {
      r := IllegalState("bazaarBid");
    }

    method BazaarBuyOrSell(buy: bool) returns (r: Outcome)
      ensures r == IllegalState("bazaarBuyOrSell")
    {
      r := IllegalState("bazaarBuyOrSell");
    }

    method CornCiclesRemoveOrDeploy(remove: bool) returns (r: Outcome)
      ensures r == IllegalState("cornCiclesRemoveOrDeploy")
    {
      r := IllegalState("cornCiclesRemoveOrDeploy");
    }

    method PlaceLittleBuilding(lbType: LittleBuilding) returns (r: Outcome)
      ensures r == IllegalState("placeLittleBuilding")
    {
      r := IllegalState("placeLittleBuilding");
    }

    /** Legal in every phase: posts the message as a chat event. */
    method ChatMessage(author: int, message: string)
      modifies game`events
      ensures game.events == old(game.events) + [ChatEvent(author, message)]
    {
      game.Post(ChatEvent(author, message));
    }

    /** Legal in every phase: hands the request to the game. */
    method Undo()
      modifies game`undoRequests
      ensures game.undoRequests == old(game.undoRequests) + 1
    {
      game.Undo();
    }
  }

  /** A default action handler leaves every field of the phase and of its game as it
      was, whatever phase is active. */
  method IllegalActionChangesNothing(ph: Phase, p: Position) returns (r: Outcome)
    ensures r == IllegalState("moveDragon")
    ensures unchanged(ph, ph.game)
  {
    r := ph.MoveDragon(p);
  }

  /** With `defaultNext` set to `y`, entering and then moving on makes `y` the active
      phase; the table, the tower capability and the undo count stay as they were. */
  method DefaultNextTransition(x: Phase, y: Phase)
    modifies x, x.game
    ensures x.game.phase == y && x.IsEntered() && x.GetDefaultNext() == y
    ensures x.game.phases == old(x.game.phases) && x.game.undoRequests == old(x.game.undoRequests)
    ensures x.game.towerCapability == old(x.game.towerCapability) && x.game.events == old(x.game.events)
  {
    x.SetDefaultNext(y);
    x.SetEntered(true);
    x.Next();
  }

  /** Once `p` is registered in the game's table, moving on to its class makes `p` the
      active phase; the rest of the table and of the game is kept. */
  method RegisterThenNextTo(ph: Phase, p: Phase)
    modifies ph.game`phase, ph.game`phases
    ensures ph.game.phase == p
    ensures ph.game.phases == old(ph.game.phases)[p.phaseClass := p]
    ensures ph.game.towerCapability == old(ph.game.towerCapability)
    ensures ph.game.undoRequests == old(ph.game.undoRequests) && ph.game.events == old(ph.game.events)
  {
    ph.game.Register(p);
    ph.NextTo(p.phaseClass);
  }
}
