/** The capability extension protocol: an expansion module overrides some of a fixed
    set of hooks and inherits the default for the others. The defaults are identities
    or constants; the two follower-action helpers are the only real logic. */
module Capabilities {
  import opened Board
  import opened TileFeatures

  datatype Option<T> = None | Some(value: T)

  /** The meeple classes; the first five are followers, the last three special figures. */
  datatype MeepleType = SmallFollower | BigFollower | Phantom | Wagon | Mayor | Builder | Pig | Barn

  predicate IsFollower(t: MeepleType)
  {
    !(t == Builder || t == Pig || t == Barn)
  }

  type FollowerType = t: MeepleType | IsFollower(t) witness SmallFollower

  /** A follower figure of the active player, in its supply or out on the board. */
  datatype Follower = Follower(meepleType: FollowerType, inSupply: bool)

  /** A player action; only meeple-deployment actions are told apart, by their meeple type. */
  datatype PlayerAction = MeepleAction(meepleType: MeepleType) | OtherAction(name: string)

  predicate IsFollowerAction(a: PlayerAction)
  {
    a.MeepleAction? && IsFollower(a.meepleType)
  }

  /** A tile definition as the hooks see it: its id and its features. */
  datatype TileDefinition = TileDefinition(id: string, features: seq<TileFeature>)

  /** A tile once it lies on the board: its definition, where it lies and how it is turned. */
  datatype Tile = Tile(definition: TileDefinition, position: Position, rotation: Rotation)

  /** Opaque per-capability state produced by `backup`. */
  type Blob = seq<int>

  /** A registered capability: its class name and the hooks it overrides (None keeps the default). */
  datatype Capability = Capability(
    className: string,
    initTileHook: Option<TileDefinition -> TileDefinition>,
    initFeatureHook: Option<(string, TileFeature) -> TileFeature>,
    backupHook: Option<Blob>,
    deployHook: Option<(Tile, MeepleType) -> bool>,
    placementHook: Option<(TileDefinition, Position) -> bool>)

  /** The state to persist; None stands for the `null` that means "nothing to persist". */
  function Backup(c: Capability): (r: Option<Blob>)
    ensures c.backupHook.None? ==> r.None?
    ensures r.Some? ==> c.backupHook == r
  {
    match c.backupHook
    case None => None
    case Some(b) => Some(b)
  }

  function InitTile(c: Capability, tile: TileDefinition): (r: TileDefinition)
    ensures c.initTileHook.None? ==> r == tile
  {
    match c.initTileHook
    case None => tile
    case Some(h) => h(tile)
  }

  function InitFeature(c: Capability, tileId: string, feature: TileFeature): (r: TileFeature)
    ensures c.initFeatureHook.None? ==> r == feature
  {
    match c.initFeatureHook
    case None => feature
    case Some(h) => h(tileId, feature)
  }

  function IsDeployAllowed(c: Capability, tile: Tile, meepleType: MeepleType): (r: bool)
    ensures c.deployHook.None? ==> r
  {
    match c.deployHook
    case None => true
    case Some(h) => h(tile, meepleType)
  }

  function IsTilePlacementAllowed(c: Capability, tile: TileDefinition, p: Position): (r: bool)
    ensures c.placementHook.None? ==> r
  {
    match c.placementHook
    case None => true
    case Some(h) => h(tile, p)
  }

  /** `initTile` of every registered capability in registration order, each given the previous result. */
  function FoldInitTile(caps: seq<Capability>, tile: TileDefinition): TileDefinition
  {
    if caps == [] then tile else FoldInitTile(caps[1..], InitTile(caps[0], tile))
  }

  /** `initFeature` of every registered capability in registration order, each given the previous result. */
  function FoldInitFeature(caps: seq<Capability>, tileId: string, feature: TileFeature): TileFeature
  {
    if caps == [] then feature else FoldInitFeature(caps[1..], tileId, InitFeature(caps[0], tileId, feature))
  }

  /** Folding any number of capabilities that keep the default `initTile` leaves the tile unchanged. */
  lemma {:induction false} DefaultInitTileFold(caps: seq<Capability>, tile: TileDefinition)
    requires forall i :: 0 <= i < |caps| ==> caps[i].initTileHook.None?
    ensures FoldInitTile(caps, tile) == tile
  {
    if caps != [] {
      DefaultInitTileFold(caps[1..], tile);
    }
  }

  /** Folding any number of capabilities that keep the default `initFeature` leaves the feature unchanged. */
  lemma {:induction false} DefaultInitFeatureFold(caps: seq<Capability>, tileId: string, feature: TileFeature)
    requires forall i :: 0 <= i < |caps| ==> caps[i].initFeatureHook.None?
    ensures FoldInitFeature(caps, tileId, feature) == feature
  {
    if caps != [] {
      DefaultInitFeatureFold(caps[1..], tileId, feature);
    }
  }

  /** The `initTile` chain respects registration order: the capabilities registered later
      transform what the earlier ones produced. */
  lemma {:induction false} InitTileFoldOrder(first: seq<Capability>, later: seq<Capability>, tile: TileDefinition)
    ensures FoldInitTile(first + later, tile) == FoldInitTile(later, FoldInitTile(first, tile))
  {
    if first != [] {
      assert (first + later)[0] == first[0];
      assert (first + later)[1..] == first[1..] + later;
      InitTileFoldOrder(first[1..], later, InitTile(first[0], tile));
    } else {
      assert first + later == later;
    }
  }

  /** Two capabilities that each append a marker to the tile id, registered A then B, give "AB". */
  lemma InitTileMarkerOrder(tile: TileDefinition)
    ensures
      var a := Capability("ACapability", Some((t: TileDefinition) => t.(id := t.id + "A")), None, None, None, None);
      var b := Capability("BCapability", Some((t: TileDefinition) => t.(id := t.id + "B")), None, None, None, None);
      FoldInitTile([a, b], tile).id == tile.id + "AB"
  {
    var a := Capability("ACapability", Some((t: TileDefinition) => t.(id := t.id + "A")), None, None, None, None);
    var b := Capability("BCapability", Some((t: TileDefinition) => t.(id := t.id + "B")), None, None, None, None);
    var afterA := InitTile(a, tile);
    assert afterA.id == tile.id + "A";
    assert [a, b][1..] == [b];
    assert FoldInitTile([a, b], tile) == FoldInitTile([b], afterA);
    assert [b][1..] == [];
    assert FoldInitTile([b], afterA) == InitTile(b, afterA);
  }

  // ---------------------------------------------------------------------------
  // Follower actions

  /** The follower meeple actions of `actions`, in their original order. */
  function FollowerActions(actions: seq<PlayerAction>): (r: seq<PlayerAction>)
    ensures |r| <= |actions|
    ensures forall i :: 0 <= i < |r| ==> IsFollowerAction(r[i])
    ensures forall a :: a in r <==> a in actions && IsFollowerAction(a)
  {
    if actions == [] then []
    else (if IsFollowerAction(actions[0]) then [actions[0]] else []) + FollowerActions(actions[1..])
  }

  /** Extending the scanned list by one action extends the filter by that action or by nothing. */
  lemma {:induction false} FollowerActionsSnoc(actions: seq<PlayerAction>, a: PlayerAction)
    ensures FollowerActions(actions + [a]) == FollowerActions(actions) + (if IsFollowerAction(a) then [a] else [])
  {
    if actions != [] {
      assert (actions + [a])[1..] == actions[1..] + [a];
      FollowerActionsSnoc(actions[1..], a);
    }
  }

  /** The filter distributes over concatenation. */
  lemma {:induction false} FollowerActionsAppend(xs: seq<PlayerAction>, ys: seq<PlayerAction>)
    ensures FollowerActions(xs + ys) == FollowerActions(xs) + FollowerActions(ys)
  {
    if xs != [] {
      assert (xs + ys)[0] == xs[0];
      assert (xs + ys)[1..] == xs[1..] + ys;
      FollowerActionsAppend(xs[1..], ys);
    } else {
      assert xs + ys == ys;
    }
  }

  /** Filtering a list of follower actions keeps all of it. */
  lemma {:induction false} FollowerActionsOfFollowerActions(actions: seq<PlayerAction>)
    requires forall i :: 0 <= i < |actions| ==> IsFollowerAction(actions[i])
    ensures FollowerActions(actions) == actions
  {
    if actions != [] {
      FollowerActionsOfFollowerActions(actions[1..]);
    }
  }

  /** Collects the follower actions of `actions` into a fresh list; `actions` is not changed. */
  method FindFollowerActions(actions: seq<PlayerAction>) returns (followerActions: seq<PlayerAction>)
    ensures followerActions == FollowerActions(actions)
  {
    followerActions := [];
    for i := 0 to |actions|
      invariant followerActions == FollowerActions(actions[..i])
    {
      var a := actions[i];
      FollowerActionsSnoc(actions[..i], a);
      assert actions[..i + 1] == actions[..i] + [a];
      if a.MeepleAction? && IsFollower(a.meepleType) {
        followerActions := followerActions + [a];
      }
    }
    assert actions[..|actions|] == actions;
  }

  /** The meeple types of the meeple actions in `actions`. */
  function TypesOf(actions: seq<PlayerAction>): set<MeepleType>
  {
    set i | 0 <= i < |actions| && actions[i].MeepleAction? :: actions[i].meepleType
  }

  /** The actions appended for `followers` in order: one for each follower in supply whose type
      is neither in `has` nor already appended. */
  function Appended(followers: seq<Follower>, has: set<MeepleType>): (r: seq<PlayerAction>)
    ensures |r| <= |followers|
  {
    if followers == [] then []
    else
      var f := followers[0];
      if f.inSupply && f.meepleType !in has then
        [MeepleAction(f.meepleType)] + Appended(followers[1..], has + {f.meepleType})
      else
        Appended(followers[1..], has)
  }

  /** Every appended action is a follower action whose type is not in `has`, and no type is appended twice. */
  lemma {:induction false} AppendedFresh(followers: seq<Follower>, has: set<MeepleType>)
    ensures forall i :: 0 <= i < |Appended(followers, has)| ==>
      IsFollowerAction(Appended(followers, has)[i]) && Appended(followers, has)[i].meepleType !in has
    ensures forall i, j :: 0 <= i < j < |Appended(followers, has)| ==>
      Appended(followers, has)[i] != Appended(followers, has)[j]
  {
    if followers != [] {
      var f := followers[0];
      if f.inSupply && f.meepleType !in has {
        AppendedFresh(followers[1..], has + {f.meepleType});
      } else {
        AppendedFresh(followers[1..], has);
      }
    }
  }

  /** Every appended action belongs to a follower in supply. */
  lemma {:induction false} AppendedFromSupply(followers: seq<Follower>, has: set<MeepleType>, i: nat)
    requires i < |Appended(followers, has)|
    ensures exists k :: 0 <= k < |followers| && followers[k].inSupply
                        && Appended(followers, has)[i] == MeepleAction(followers[k].meepleType)
  {
    var f := followers[0];
    if f.inSupply && f.meepleType !in has {
      if i > 0 {
        AppendedFromSupply(followers[1..], has + {f.meepleType}, i - 1);
        var k :| 0 <= k < |followers[1..]| && followers[1..][k].inSupply
                 && Appended(followers[1..], has + {f.meepleType})[i - 1] == MeepleAction(followers[1..][k].meepleType);
        assert followers[k + 1] == followers[1..][k];
      } else {
        assert followers[0] == f;
      }
    } else {
      AppendedFromSupply(followers[1..], has, i);
      var k :| 0 <= k < |followers[1..]| && followers[1..][k].inSupply
               && Appended(followers[1..], has)[i] == MeepleAction(followers[1..][k].meepleType);
      assert followers[k + 1] == followers[1..][k];
    }
  }

  /** Every follower in supply ends up with an action: its type was in `has` or was appended. */
  lemma {:induction false} AppendedCoversSupply(followers: seq<Follower>, has: set<MeepleType>, k: nat)
    requires k < |followers| && followers[k].inSupply
    ensures followers[k].meepleType in has || MeepleAction(followers[k].meepleType) in Appended(followers, has)
  {
    var f := followers[0];
    var has' := if f.inSupply && f.meepleType !in has then has + {f.meepleType} else has;
    if k > 0 {
      assert followers[1..][k - 1] == followers[k];
      AppendedCoversSupply(followers[1..], has', k - 1);
    }
  }

  /** With every in-supply follower type already covered, nothing is appended. */
  lemma {:induction false} AppendedNothingWhenCovered(followers: seq<Follower>, has: set<MeepleType>)
    requires forall k :: 0 <= k < |followers| && followers[k].inSupply ==> followers[k].meepleType in has
    ensures Appended(followers, has) == []
  {
    if followers != [] {
      assert forall k :: 0 <= k < |followers[1..]| ==> followers[1..][k] == followers[k + 1];
      AppendedNothingWhenCovered(followers[1..], has);
    }
  }

  /** What `findAndFillFollowerActions` appends to `actions`. */
  function Fill(actions: seq<PlayerAction>, followers: seq<Follower>): seq<PlayerAction>
  {
    Appended(followers, TypesOf(FollowerActions(actions)))
  }

  /** The caller's mutable list of player actions. */
  class ActionList {
    var items: seq<PlayerAction>

    constructor(items: seq<PlayerAction>)
      ensures this.items == items
    {
      this.items := items;
    }
  }

  /** One step of the fill loop: the follower at `i` is appended exactly when it is in supply
      and its type has no action yet, and then its type counts as having one. */
  lemma AppendedStep(target: seq<PlayerAction>, added: seq<PlayerAction>, followers: seq<Follower>, i: nat, has: set<MeepleType>)
    requires i < |followers|
    requires target == added + Appended(followers[i..], has)
    ensures followers[i].inSupply && followers[i].meepleType !in has ==>
      target == (added + [MeepleAction(followers[i].meepleType)]) + Appended(followers[i + 1..], has + {followers[i].meepleType})
    ensures !(followers[i].inSupply && followers[i].meepleType !in has) ==>
      target == added + Appended(followers[i + 1..], has)
  {
    assert followers[i..][0] == followers[i];
    assert followers[i..][1..] == followers[i + 1..];
  }

  /** The meeple types of a list of meeple actions, gathered one by one into a set. */
  method CollectTypes(followerActions: seq<PlayerAction>) returns (hasAction: set<MeepleType>)
    ensures hasAction == TypesOf(followerActions)
  {
    hasAction := {};
    for i := 0 to |followerActions|
      invariant hasAction == TypesOf(followerActions[..i])
    {
      assert followerActions[..i + 1] == followerActions[..i] + [followerActions[i]];
      if followerActions[i].MeepleAction? {
        hasAction := hasAction + {followerActions[i].meepleType};
      }
    }
    assert followerActions[..|followerActions|] == followerActions;
  }

  /** Finds the follower actions of `actions` and appends, to `actions` and to the result, a
      meeple action for each follower type in supply that has none yet. */
  method FindAndFillFollowerActions(actions: ActionList, followers: seq<Follower>)
    returns (followerActions: seq<PlayerAction>)
    modifies actions
    ensures actions.items == old(actions.items) + Fill(old(actions.items), followers)
    ensures followerActions == FollowerActions(old(actions.items)) + Fill(old(actions.items), followers)
  {
    followerActions := FindFollowerActions(actions.items);
    var hasAction := CollectTypes(followerActions);
    ghost var items0 := actions.items;
    ghost var found := followerActions;
    ghost var target := Fill(items0, followers);
    ghost var added: seq<PlayerAction> := [];
    assert followers[0..] == followers;
    for i := 0 to |followers|
      invariant actions.items == items0 + added
      invariant followerActions == found + added
      invariant target == added + Appended(followers[i..], hasAction)
    {
      var f := followers[i];
      AppendedStep(target, added, followers, i, hasAction);
      if f.inSupply && f.meepleType !in hasAction {
        var ma := MeepleAction(f.meepleType);
        actions.items := actions.items + [ma];
        followerActions := followerActions + [ma];
        hasAction := hasAction + {f.meepleType};
        added := added + [ma];
      }
    }
  }

  /** After the fill, every follower in supply has a follower action in the list. */
  lemma FillCoversSupply(actions: seq<PlayerAction>, followers: seq<Follower>, k: nat)
    requires k < |followers| && followers[k].inSupply
    ensures MeepleAction(followers[k].meepleType) in actions + Fill(actions, followers)
  {
    var has := TypesOf(FollowerActions(actions));
    AppendedCoversSupply(followers, has, k);
    var t := followers[k].meepleType;
    if t in has {
      var i :| 0 <= i < |FollowerActions(actions)| && FollowerActions(actions)[i].MeepleAction?
               && FollowerActions(actions)[i].meepleType == t;
      assert FollowerActions(actions)[i] in FollowerActions(actions);
    }
  }

  /** The fill appends at most one action per follower type, and none for a type that already had one. */
  lemma FillAddsOnlyMissingTypes(actions: seq<PlayerAction>, followers: seq<Follower>, i: nat)
    requires i < |Fill(actions, followers)|
    ensures IsFollowerAction(Fill(actions, followers)[i])
    ensures Fill(actions, followers)[i].meepleType !in TypesOf(FollowerActions(actions))
    ensures Fill(actions, followers)[i] !in FollowerActions(actions)
    ensures forall j :: 0 <= j < |Fill(actions, followers)| && j != i ==>
      Fill(actions, followers)[j] != Fill(actions, followers)[i]
  {
    var fa := FollowerActions(actions);
    AppendedFresh(followers, TypesOf(fa));
    forall j | 0 <= j < |fa|
      ensures fa[j] != Fill(actions, followers)[i]
    {
      assert fa[j].meepleType in TypesOf(fa);
    }
  }

  /** Filling twice appends nothing the second time. */
  lemma FillIdempotent(actions: seq<PlayerAction>, followers: seq<Follower>)
    ensures Fill(actions + Fill(actions, followers), followers) == []
  {
    var added := Fill(actions, followers);
    var after := actions + added;
    AppendedFresh(followers, TypesOf(FollowerActions(actions)));
    FollowerActionsAppend(actions, added);
    FollowerActionsOfFollowerActions(added);
    var has := TypesOf(FollowerActions(after));
    forall k | 0 <= k < |followers| && followers[k].inSupply
      ensures followers[k].meepleType in has
    {
      FillCoversSupply(actions, followers, k);
      var ma := MeepleAction(followers[k].meepleType);
      assert ma in FollowerActions(after);
      var j :| 0 <= j < |FollowerActions(after)| && FollowerActions(after)[j] == ma;
    }
    AppendedNothingWhenCovered(followers, has);
  }

  // ---------------------------------------------------------------------------
  // toString

  /** Java's `String.replace(target, "")`: scans left to right and drops every
      non-overlapping occurrence of `target`. */
  function RemoveAll(s: string, target: string): (r: string)
    requires target != []
    ensures |r| <= |s|
    decreases |s|
  {
    if s == [] then []
    else if target <= s then RemoveAll(s[|target|..], target)
    else [s[0]] + RemoveAll(s[1..], target)
  }

  /** No occurrence of `target` starts among the first `n` characters of `s`. */
  predicate NoOccurrenceIn(s: string, n: nat, target: string)
    requires n <= |s|
  {
    forall i :: 0 <= i < n ==> !(target <= s[i..])
  }

  /** When no occurrence starts inside the prefix, the prefix is kept as it is. */
  lemma {:induction false} RemoveAllKeepsPrefix(p: string, q: string, target: string)
    requires target != []
    requires NoOccurrenceIn(p + q, |p|, target)
    ensures RemoveAll(p + q, target) == p + RemoveAll(q, target)
  {
    if p != [] {
      assert (p + q)[0..] == p + q;
      assert (p + q)[1..] == p[1..] + q;
      forall i | 0 <= i < |p[1..]|
        ensures !(target <= (p[1..] + q)[i..])
      {
        assert (p[1..] + q)[i..] == (p + q)[i + 1..];
      }
      RemoveAllKeepsPrefix(p[1..], q, target);
    }
  }

  /** `t` starts at index `i` of `s` exactly when the slice of that length there equals `t`. */
  lemma PrefixAt(t: string, s: string, i: nat)
    requires i + |t| <= |s|
    ensures (t <= s[i..]) == (t == s[i..i + |t|])
  {
  }

  /** The class-name suffix every capability carries. */
  const Suffix := "Capability"

  /** The capability's display name: its simple class name with "Capability" removed. */
  function ToString(c: Capability): (r: string)
    ensures |r| <= |c.className|
  {
    RemoveAll(c.className, Suffix)
  }

  /** A class named `<p>Capability`, where `p` holds no "Capability", displays as `p`. */
  lemma ToStringStripsSuffix(c: Capability, p: string)
    requires c.className == p + Suffix
    requires NoOccurrenceIn(p, |p|, Suffix)
    ensures ToString(c) == p
  {
    var s := p + Suffix;
    forall i | 0 <= i < |p|
      ensures !(Suffix <= s[i..])
    {
      if i + |Suffix| <= |p| {
        assert s[i..i + |Suffix|] == p[i..i + |Suffix|];
        PrefixAt(Suffix, p, i);
        PrefixAt(Suffix, s, i);
      } else {
        // an occurrence straddling into the suffix would need the capital 'C' at a lower-case position
        var j := |p| - i;
        assert 0 < j < |Suffix|;
        assert s[i + j] == 'C';
        assert Suffix[j] != 'C';
      }
    }
    RemoveAllKeepsPrefix(p, Suffix, Suffix);
    assert Suffix[|Suffix|..] == [];
  }

  /** For example, the tower expansion's capability displays as "Tower". */
  lemma TowerToString(c: Capability)
    requires c.className == "TowerCapability"
    ensures ToString(c) == "Tower"
  {
    assert "TowerCapability" == "Tower" + Suffix;
    ToStringStripsSuffix(c, "Tower");
  }
}
