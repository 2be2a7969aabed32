/** The place-list algebra of an immutable per-tile region descriptor: a feature
    holds an ordered list of feature pointers and a non-owning handle of its game,
    and its helpers return new lists without changing the feature. */
module TileFeatures {
  import opened Board

  /** Non-owning handle of the game a feature belongs to. */
  datatype GameRef = GameRef(id: nat)

  /** A region descriptor; both fields are fixed when it is constructed. */
  datatype TileFeature = TileFeature(game: GameRef, places: seq<FeaturePointer>)

  function GetGame(f: TileFeature): GameRef
  {
    f.game
  }

  function GetPlaces(f: TileFeature): seq<FeaturePointer>
  {
    f.places
  }

  /** The accessors give back exactly what the constructor was given. */
  lemma ConstructedFeature(game: GameRef, places: seq<FeaturePointer>)
    ensures GetPlaces(TileFeature(game, places)) == places
    ensures GetGame(TileFeature(game, places)) == game
  {
  }

  /** The places of `f` followed by the places of `obj`; neither operand changes. */
  function MergePlaces(f: TileFeature, obj: TileFeature): (r: seq<FeaturePointer>)
    ensures |r| == |f.places| + |obj.places|
    ensures r[..|f.places|] == f.places
    ensures r[|f.places|..] == obj.places
  {
    f.places + obj.places
  }

  /** Where one pointer of a tile lands on the board: rotated first, then translated. */
  function PlaceOnBoard(fp: FeaturePointer, pos: Position, rot: Rotation): FeaturePointer
  {
    Translate(RotateCW(fp, rot), pos)
  }

  /** Maps every pointer of `ps`, in order, to its place on the board. */
  function PlacePointers(ps: seq<FeaturePointer>, pos: Position, rot: Rotation): (r: seq<FeaturePointer>)
    ensures |r| == |ps|
    ensures forall i :: 0 <= i < |ps| ==> r[i] == Translate(RotateCW(ps[i], rot), pos)
  {
    if ps == [] then [] else [PlaceOnBoard(ps[0], pos, rot)] + PlacePointers(ps[1..], pos, rot)
  }

  /** The places of a tile's feature once the tile is put on the board at `pos`, turned by `rot`. */
  function PlaceOnBoardPlaces(f: TileFeature, pos: Position, rot: Rotation): (r: seq<FeaturePointer>)
    ensures |r| == |f.places|
    ensures forall i :: 0 <= i < |f.places| ==> r[i] == Translate(RotateCW(f.places[i], rot), pos)
  {
    PlacePointers(f.places, pos, rot)
  }

  /** The inverse transformation: translate back to the tile, then turn back. */
  function LiftPointers(ps: seq<FeaturePointer>, pos: Position, rot: Rotation): (r: seq<FeaturePointer>)
    ensures |r| == |ps|
    ensures forall i :: 0 <= i < |ps| ==> r[i] == RotateCW(Translate(ps[i], Negate(pos)), Inverse(rot))
  {
    if ps == [] then [] else [RotateCW(Translate(ps[0], Negate(pos)), Inverse(rot))] + LiftPointers(ps[1..], pos, rot)
  }

  /** Placing on the board loses nothing: lifting the placed list back gives the feature's places. */
  lemma PlaceThenLift(f: TileFeature, pos: Position, rot: Rotation)
    ensures LiftPointers(PlaceOnBoardPlaces(f, pos, rot), pos, rot) == f.places
  {
    var back := LiftPointers(PlaceOnBoardPlaces(f, pos, rot), pos, rot);
    forall i | 0 <= i < |f.places|
      ensures back[i] == f.places[i]
    {
      TranslateInverse(RotateCW(f.places[i], rot), pos);
      RotateInverse(f.places[i], rot);
    }
  }

  /** Put on the board at the origin without turning, the places stay as they are. */
  lemma PlaceAtOriginUnturned(f: TileFeature)
    ensures PlaceOnBoardPlaces(f, Origin, R0) == f.places
  {
  }

  /** Placing a merged feature equals merging the placed features: placement distributes over merge. */
  lemma PlaceDistributesOverMerge(a: TileFeature, b: TileFeature, game: GameRef, pos: Position, rot: Rotation)
    ensures PlaceOnBoardPlaces(TileFeature(game, MergePlaces(a, b)), pos, rot)
         == MergePlaces(TileFeature(a.game, PlaceOnBoardPlaces(a, pos, rot)), TileFeature(b.game, PlaceOnBoardPlaces(b, pos, rot)))
  {
  }

  /** Merging is associative: the order in which pairs of features merge does not change the list. */
  lemma MergeAssociative(a: TileFeature, b: TileFeature, c: TileFeature, g1: GameRef, g2: GameRef)
    ensures MergePlaces(TileFeature(g1, MergePlaces(a, b)), c) == MergePlaces(a, TileFeature(g2, MergePlaces(b, c)))
  {
  }
}
