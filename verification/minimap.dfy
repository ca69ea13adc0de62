/** A player's minimap (`Minimap`): the holder, the primary (terrain) layer, the
    insertion-ordered secondary layers keyed by name, and the side of the screen it is
    shown on.  A frame update renders the primary layer, encodes it, sends it, then
    renders, encodes and sends every secondary layer of the holder's world in order.
    What a frame sends (declared tile keys, layer updates, spawns and despawns) is
    returned as a list of effects. */
module Minimaps {
  import opened Common
  import opened LinkedMaps
  import opened PrimaryEncoding
  import opened SecondaryEncoding
  import opened Viewport

  /** Name of the death-point marker layer. */
  const DeathPointKey: string := "death_point"

  /** What a renderer other than the world cache leaves in a fresh buffer for a
      secondary layer: its own renderer if it has one, else that of its base layer,
      else nothing (all zero). */
  function Drawn(layer: SecondaryLayer, env: Env): Tile
  {
    if layer.renderer.Some? then env.draw(layer.renderer.value)
    else if layer.base.renderer.Some? then env.draw(layer.base.renderer.value)
    else Blank()
  }

  /** A secondary layer pinned to a world other than the holder's is left out of the
      frame (but stays registered). */
  predicate Skipped(layer: SecondaryLayer, holderWorld: World)
  {
    layer.world.Some? && layer.world.value != holderWorld
  }

  /** The death-point marker `setDeathPoint` registers: an icon marker that tracks
      the block of the death location. */
  function DeathMarker(icon: Icon, deathLocation: Location, base: BaseLayer, stickToBorder: bool): (layer: SecondaryLayer)
    ensures layer.base == base && layer.renderer == Some(IconRenderer(icon))
    ensures layer.trackLocation && layer.keepOnEdge == stickToBorder && layer.isMarker
    ensures layer.world == deathLocation.world
    ensures layer.positionX as real <= deathLocation.x < layer.positionX as real + 1.0
    ensures layer.positionZ as real <= deathLocation.z < layer.positionZ as real + 1.0
  {
    SecondaryLayer(base, Some(IconRenderer(icon)), true, stickToBorder, deathLocation.world,
      Floor(deathLocation.x), Floor(deathLocation.z), 0.05, true)
  }

  /** The secondary layers after `setDeathPoint`: the death marker replaces any
      previous one when the death icon exists; without an icon nothing changes. */
  function WithDeathPoint(layers: LinkedMap<SecondaryLayer>, deathIcon: Option<Icon>, deathLocation: Location,
                          base: BaseLayer, stickToBorder: bool): (r: LinkedMap<SecondaryLayer>)
    requires layers.Valid()
    ensures r.Valid()
  {
    if deathIcon.Some? then layers.Put(DeathPointKey, DeathMarker(deathIcon.value, deathLocation, base, stickToBorder))
    else layers
  }

  /** `getDeathPoint` on a set of layers: the world and block position of the death
      marker, at height 0, if there is one. */
  function DeathPointOf(layers: LinkedMap<SecondaryLayer>): (r: Option<Location>)
    ensures r.Some? <==> DeathPointKey in layers.entries
    ensures r.Some? ==> var layer := layers.entries[DeathPointKey];
      r.value == Location(layer.world, layer.positionX as real, 0.0, layer.positionZ as real)
  {
    match layers.Get(DeathPointKey)
    case Some(layer) => Some(Location(layer.world, layer.positionX as real, 0.0, layer.positionZ as real))
    case None => None
  }

  /** After a death point is set with an icon, the death point reads back as the
      block the death happened in, in the death location's world. */
  lemma SetThenGetDeathPoint(layers: LinkedMap<SecondaryLayer>, icon: Icon, deathLocation: Location, base: BaseLayer, stickToBorder: bool)
    requires layers.Valid()
    ensures DeathPointOf(WithDeathPoint(layers, Some(icon), deathLocation, base, stickToBorder))
      == Some(Location(deathLocation.world, Floor(deathLocation.x) as real, 0.0, Floor(deathLocation.z) as real))
  {
  }

  /** Without a death icon the previous death point, if any, stays registered. */
  lemma SetWithoutIconKeepsOld(layers: LinkedMap<SecondaryLayer>, deathLocation: Location, base: BaseLayer, stickToBorder: bool)
    requires layers.Valid()
    ensures WithDeathPoint(layers, None, deathLocation, base, stickToBorder) == layers
    ensures DeathPointOf(WithDeathPoint(layers, None, deathLocation, base, stickToBorder)) == DeathPointOf(layers)
  {
  }

  /** Setting and resetting the death point leave every other layer as it was. */
  lemma DeathPointTouchesOnlyItsKey(layers: LinkedMap<SecondaryLayer>, deathIcon: Option<Icon>, deathLocation: Location,
                                   base: BaseLayer, stickToBorder: bool, name: string)
    requires layers.Valid() && name != DeathPointKey
    ensures name in WithDeathPoint(layers, deathIcon, deathLocation, base, stickToBorder).entries <==> name in layers.entries
    ensures name in layers.entries ==>
      WithDeathPoint(layers, deathIcon, deathLocation, base, stickToBorder).entries[name] == layers.entries[name]
    ensures name in layers.Remove(DeathPointKey).entries <==> name in layers.entries
    ensures name in layers.entries ==> layers.Remove(DeathPointKey).entries[name] == layers.entries[name]
  {
  }

  /** After a reset there is no death point. */
  lemma ResetThenGetDeathPoint(layers: LinkedMap<SecondaryLayer>)
    requires layers.Valid()
    ensures DeathPointOf(layers.Remove(DeathPointKey)) == None
  {
  }

  class Minimap {
    /** The player the minimap belongs to, as of this frame. */
    var holder: Player
    const primaryLayer: BaseLayer
    var secondaryLayers: LinkedMap<SecondaryLayer>
    var screenPosition: ScreenPosition

    /** The layer map is well formed, and the primary layer has a renderer (rendering
        through a missing one fails in the source). */
    ghost predicate Valid()
      reads this
    {
      secondaryLayers.Valid() && primaryLayer.renderer.Some?
    }

    constructor (holder: Player, screenPosition: ScreenPosition, primaryLayer: BaseLayer, secondaryLayers: LinkedMap<SecondaryLayer>)
      requires secondaryLayers.Valid() && primaryLayer.renderer.Some?
      ensures Valid()
      ensures this.holder == holder && this.screenPosition == screenPosition
      ensures this.primaryLayer == primaryLayer && this.secondaryLayers == secondaryLayers
    {
      this.holder := holder;
      this.screenPosition := screenPosition;
      this.primaryLayer := primaryLayer;
      this.secondaryLayers := secondaryLayers;
    }

    // ---------------------------------------------------------------- frame specification

    /** The primary layer's image before encoding.  With the world-cache renderer at
        scale 1 it is stitched around the holder's own block; zoomed, around the
        scaled `playerX`, `playerZ`; any other renderer draws it. */
    function Terrain(env: Env, playerX: real, playerZ: real): Tile
      requires Valid() && env.Valid()
      reads this
    {
      match primaryLayer.renderer.value
      case WorldCache =>
        if env.scale == 1 then OneToOneImage(env.tiles, holder.world, Floor(holder.x), Floor(holder.z))
        else ZoomedImage(env.tiles, holder.world, ViewStart(playerX, env.scale), ViewStart(playerZ, env.scale), env.scale)
      case _ => env.draw(primaryLayer.renderer.value)
    }

    /** The tile keys a frame declares to the cache, if any. */
    function KeyEffects(env: Env, playerX: real, playerZ: real, updateViewerKeys: bool): seq<Effect>
      requires Valid() && env.Valid()
      reads this
    {
      if primaryLayer.renderer.value != WorldCache then []
      else if env.scale == 1 then
        if updateViewerKeys then [ViewerChunks(holder.id, OneToOneKeys(holder.world, playerX, playerZ))] else []
      else [ViewerChunks(holder.id, ZoomedKeys(holder.world, ViewStart(playerX, env.scale), ViewStart(playerZ, env.scale), env.scale))]
    }

    /** The update a secondary layer contributes to a frame: none when it is skipped,
        otherwise its drawn image with the secondary encoding applied. */
    function LayerFrame(env: Env, layer: SecondaryLayer): seq<Effect>
      requires env.Valid()
      reads this
    {
      if Skipped(layer, holder.world) then [] else [LayerUpdateOf(env, layer)]
    }

    /** The update that sends a secondary layer: its drawn image, secondary-encoded. */
    function LayerUpdateOf(env: Env, layer: SecondaryLayer): Effect
      requires env.Valid()
      reads this
    {
      LayerUpdate(layer.base.id, SecondaryEncoded(Drawn(layer, env), holder, screenPosition, layer, env))
    }

    /** The updates of the layers named by `names`, in that order, none skipped. */
    function UpdatesOf(env: Env, names: seq<string>): (r: seq<Effect>)
      requires env.Valid()
      requires forall k | k in names :: k in secondaryLayers.entries
      reads this
      ensures |r| == |names|
    {
      if names == [] then []
      else UpdatesOf(env, names[..|names| - 1]) + [LayerUpdateOf(env, secondaryLayers.entries[names[|names| - 1]])]
    }

    /** The updates of the secondary layers named by `keys`, in that order. */
    function SecondaryEffects(env: Env, keys: seq<string>): seq<Effect>
      requires env.Valid()
      requires forall k | k in keys :: k in secondaryLayers.entries
      reads this
    {
      if keys == [] then []
      else SecondaryEffects(env, keys[..|keys| - 1]) + LayerFrame(env, secondaryLayers.entries[keys[|keys| - 1]])
    }

    /** The layer updates of a frame: the encoded primary layer, then the secondary
        layers in insertion order. */
    function LayerEffects(env: Env, playerX: real, playerZ: real): seq<Effect>
      requires Valid() && env.Valid()
      reads this
    {
      [LayerUpdate(primaryLayer.id, PrimaryEncoded(Terrain(env, playerX, playerZ), screenPosition == Right, playerX, playerZ, env))]
        + SecondaryEffects(env, secondaryLayers.keys)
    }

    /** Everything one frame sends: the declared keys, then the layer updates. */
    function FrameEffects(env: Env, playerX: real, playerZ: real, updateViewerKeys: bool): seq<Effect>
      requires Valid() && env.Valid()
      reads this
    {
      KeyEffects(env, playerX, playerZ, updateViewerKeys) + LayerEffects(env, playerX, playerZ)
    }

    // ---------------------------------------------------------------- frame operations

    /** `update(provider, playerX, playerZ, updateViewerKeys)`. */
    method Update(env: Env, playerX: real, playerZ: real, updateViewerKeys: bool) returns (effects: seq<Effect>)
      requires Valid() && env.Valid()
      ensures effects == FrameEffects(env, playerX, playerZ, updateViewerKeys)
    {
      var keys, layer := RenderPrimary(env, playerX, playerZ, updateViewerKeys);
      var data := new Byte[TileSize](i requires 0 <= i < TileSize => layer[i]);
      assert data[..] == layer;
      EncodePrimaryLayer(screenPosition == Right, playerX, playerZ, data, env);
      var secondary := UpdateSecondaryLayers(env);
      effects := keys + ([LayerUpdate(primaryLayer.id, data[..])] + secondary);
    }

    /** The rendering part of `update`: the primary layer's image and the keys the
        frame declares. */
    method RenderPrimary(env: Env, playerX: real, playerZ: real, updateViewerKeys: bool) returns (keys: seq<Effect>, layer: Tile)
      requires Valid() && env.Valid()
      ensures keys == KeyEffects(env, playerX, playerZ, updateViewerKeys)
      ensures layer == Terrain(env, playerX, playerZ)
    {
      keys := [];
      var primaryRenderer := primaryLayer.renderer.value;
      if primaryRenderer == WorldCache {
        var scale := env.scale;
        if scale == 1 {
          layer := RenderOneToOne(env.tiles, holder.world, Floor(holder.x), Floor(holder.z));
          var usedChunks := OneToOneKeys(holder.world, playerX, playerZ);
          if updateViewerKeys {
            keys := [ViewerChunks(holder.id, usedChunks)];
          }
        } else {
          layer := RenderZoomed(env.tiles, holder.world, playerX, playerZ, scale);
          var updateKeys := updateViewerKeys || scale != 1;
          if updateKeys {
            var usedChunks := CollectZoomedKeys(holder.world, ViewStart(playerX, scale), ViewStart(playerZ, scale), scale);
            keys := [ViewerChunks(holder.id, usedChunks)];
          }
        }
      } else {
        layer := env.draw(primaryRenderer);
      }
    }

    /** `updateSecondaryLayers(provider)`: every layer not pinned to another world is
        drawn, encoded and sent, in insertion order; no layer is removed. */
    method UpdateSecondaryLayers(env: Env) returns (effects: seq<Effect>)
      requires Valid() && env.Valid()
      ensures effects == SecondaryEffects(env, secondaryLayers.keys)
    {
      var keys := secondaryLayers.keys;
      effects := [];
      var i := 0;
      while i < |keys|
        invariant 0 <= i <= |keys|
        invariant effects == SecondaryEffects(env, keys[..i])
      {
        ghost var prefix := keys[..i + 1];
        assert prefix[..i] == keys[..i] && prefix[i] == keys[i];
        assert SecondaryEffects(env, prefix) == SecondaryEffects(env, keys[..i]) + LayerFrame(env, secondaryLayers.entries[keys[i]]);
        var frame := UpdateSecondaryLayer(env, secondaryLayers.entries[keys[i]]);
        effects := effects + frame;
        i := i + 1;
      }
      assert keys[..|keys|] == keys;
    }

    /** One pass of the loop of `updateSecondaryLayers`: a layer pinned to another
        world is skipped, any other is drawn into a fresh buffer, encoded and sent. */
    method UpdateSecondaryLayer(env: Env, secondary: SecondaryLayer) returns (frame: seq<Effect>)
      requires env.Valid()
      ensures frame == LayerFrame(env, secondary)
    {
      if secondary.world.Some? && secondary.world.value != holder.world {
        return [];
      }
      var drawn := Drawn(secondary, env);
      var secondaryLayer := new Byte[TileSize](j requires 0 <= j < TileSize => drawn[j]);
      assert secondaryLayer[..] == drawn;
      EncodeSecondaryLayer(holder, screenPosition, secondary, secondaryLayer, env);
      frame := [LayerUpdate(secondary.base.id, secondaryLayer[..])];
    }

    /** `update(provider)`: a frame at the holder's own position that does not declare
        keys at scale 1. */
    method UpdateDefault(env: Env) returns (effects: seq<Effect>)
      requires Valid() && env.Valid()
      ensures effects == FrameEffects(env, holder.x, holder.z, false)
    {
      effects := Update(env, holder.x, holder.z, false);
    }

    /** `respawn(provider)`: despawn and spawn the minimap, then a frame at the holder's
        position that declares its keys. */
    method Respawn(env: Env) returns (effects: seq<Effect>)
      requires Valid() && env.Valid()
      ensures effects == [DespawnMinimap, SpawnMinimap] + FrameEffects(env, holder.x, holder.z, true)
    {
      var frame := Update(env, holder.x, holder.z, true);
      effects := [DespawnMinimap, SpawnMinimap] + frame;
    }

    // ---------------------------------------------------------------- death point

    /** `resetDeathPoint(provider)`: removes the death marker and despawns its layer. */
    method ResetDeathPoint() returns (effects: seq<Effect>)
      requires Valid()
      modifies this
      ensures Valid()
      ensures secondaryLayers == old(secondaryLayers).Remove(DeathPointKey)
      ensures effects == if DeathPointKey in old(secondaryLayers.entries)
        then [DespawnLayer(old(secondaryLayers.entries[DeathPointKey]).base.id)] else []
      ensures holder == old(holder) && screenPosition == old(screenPosition)
    {
      var currentDeathPoint := secondaryLayers.Get(DeathPointKey);
      secondaryLayers := secondaryLayers.Remove(DeathPointKey);
      effects := [];
      if currentDeathPoint.Some? {
        effects := [DespawnLayer(currentDeathPoint.value.base.id)];
      }
    }

    /** `setDeathPoint(provider, deathLocation)`.  The old marker's layer is despawned
        in any case; the new marker is registered only when the death icon exists, and
        its layer is spawned when it is in the holder's world.  `newBaseId` names the
        fresh client-side layer the factory creates (it has no renderer of its own). */
    method SetDeathPoint(deathIcon: Option<Icon>, deathLocation: Location, newBaseId: nat, stickToBorder: bool)
      returns (effects: seq<Effect>)
      requires Valid()
      requires deathIcon.Some? ==> deathLocation.world.Some?
      modifies this
      ensures Valid()
      ensures secondaryLayers == WithDeathPoint(old(secondaryLayers), deathIcon, deathLocation, BaseLayer(newBaseId, None), stickToBorder)
      ensures effects ==
        (if DeathPointKey in old(secondaryLayers.entries) then [DespawnLayer(old(secondaryLayers.entries[DeathPointKey]).base.id)] else [])
        + (if deathIcon.Some? && deathLocation.world == Some(holder.world) then [SpawnLayer(newBaseId)] else [])
      ensures holder == old(holder) && screenPosition == old(screenPosition)
    {
      effects := [];
      var currentDeathPoint := secondaryLayers.Get(DeathPointKey);
      if currentDeathPoint.Some? {
        effects := [DespawnLayer(currentDeathPoint.value.base.id)];
      }
      if deathIcon.Some? {
        var iconBaseLayer := BaseLayer(newBaseId, None);
        var iconLayer := SecondaryLayer(iconBaseLayer, Some(IconRenderer(deathIcon.value)), true, stickToBorder,
          deathLocation.world, Floor(deathLocation.x), Floor(deathLocation.z), 0.05, true);
        secondaryLayers := secondaryLayers.Put(DeathPointKey, iconLayer);
        if iconLayer.world.value == holder.world {
          effects := effects + [SpawnLayer(iconBaseLayer.id)];
        }
      }
    }

    /** `getDeathPoint()`. */
    function GetDeathPoint(): (r: Option<Location>)
      reads this
      ensures r == DeathPointOf(secondaryLayers)
    {
      match secondaryLayers.Get(DeathPointKey)
      case Some(layer) => Some(Location(layer.world, layer.positionX as real, 0.0, layer.positionZ as real))
      case None => None
    }
  }

  // ---------------------------------------------------------------- frame properties

  /** The secondary layers a frame sends, in insertion order. */
  function VisibleKeys(keys: seq<string>, layers: map<string, SecondaryLayer>, holderWorld: World): (r: seq<string>)
    requires forall k | k in keys :: k in layers
    ensures forall k | k in r :: k in keys
  {
    if keys == [] then []
    else
      var last := keys[|keys| - 1];
      VisibleKeys(keys[..|keys| - 1], layers, holderWorld) + (if Skipped(layers[last], holderWorld) then [] else [last])
  }

  /** The secondary part of a frame is the update of every layer not pinned to another
      world, in the order of the keys: the skipped layers are filtered out, and nothing
      else changes. */
  lemma {:induction false} SecondaryEffectsAreVisibleLayers(m: Minimap, env: Env, keys: seq<string>)
    requires env.Valid()
    requires forall k | k in keys :: k in m.secondaryLayers.entries
    ensures m.SecondaryEffects(env, keys) == m.UpdatesOf(env, VisibleKeys(keys, m.secondaryLayers.entries, m.holder.world))
    decreases |keys|
  {
    if keys != [] {
      var init, last := keys[..|keys| - 1], keys[|keys| - 1];
      assert forall k | k in init :: k in keys;
      SecondaryEffectsAreVisibleLayers(m, env, init);
      var effects := m.SecondaryEffects(env, init);
      var visible := VisibleKeys(init, m.secondaryLayers.entries, m.holder.world);
      var frame := m.LayerFrame(env, m.secondaryLayers.entries[last]);
      assert m.SecondaryEffects(env, keys) == effects + frame;
      if Skipped(m.secondaryLayers.entries[last], m.holder.world) {
        assert frame == [];
        assert VisibleKeys(keys, m.secondaryLayers.entries, m.holder.world) == visible;
        assert effects + frame == effects;
      } else {
        var visible' := visible + [last];
        assert VisibleKeys(keys, m.secondaryLayers.entries, m.holder.world) == visible';
        assert visible'[..|visible'| - 1] == visible;
        assert m.UpdatesOf(env, visible') == m.UpdatesOf(env, visible) + frame;
      }
    }
  }

  /** Each name's update sits at the name's own position. */
  lemma {:induction false} UpdatesOfAt(m: Minimap, env: Env, names: seq<string>, j: nat)
    requires env.Valid()
    requires forall k | k in names :: k in m.secondaryLayers.entries
    requires j < |names|
    ensures m.UpdatesOf(env, names)[j] == m.LayerUpdateOf(env, m.secondaryLayers.entries[names[j]])
    decreases |names|
  {
    if j < |names| - 1 {
      UpdatesOfAt(m, env, names[..|names| - 1], j);
    }
  }

  /** A frame declares tile keys exactly when the primary layer is drawn from the
      world cache and either the scale is not 1 or the caller asks for it; the 1:1
      keys are the four around `playerX`, `playerZ`, and the zoomed keys cover every
      tile the zoomed image reads. */
  lemma FrameDeclaresKeys(m: Minimap, env: Env, playerX: real, playerZ: real, updateViewerKeys: bool)
    requires m.Valid() && env.Valid()
    ensures var effects := m.FrameEffects(env, playerX, playerZ, updateViewerKeys);
      effects[0].ViewerChunks? <==>
        m.primaryLayer.renderer.value == WorldCache && (env.scale != 1 || updateViewerKeys)
    ensures var effects := m.FrameEffects(env, playerX, playerZ, updateViewerKeys);
      effects[0].ViewerChunks? && env.scale == 1 ==>
        effects[0] == ViewerChunks(m.holder.id, OneToOneKeys(m.holder.world, playerX, playerZ))
    ensures var effects := m.FrameEffects(env, playerX, playerZ, updateViewerKeys);
      effects[0].ViewerChunks? && env.scale != 1 ==>
        forall x, z | InMap(x) && InMap(z) ::
          var startX, startZ := ViewStart(playerX, env.scale), ViewStart(playerZ, env.scale);
          TileKey(m.holder.world, ZoomedOrigin(WorldAt(startX, x, env.scale)), ZoomedOrigin(WorldAt(startZ, z, env.scale)))
            in effects[0].keys
  {
    var effects := m.FrameEffects(env, playerX, playerZ, updateViewerKeys);
    if effects[0].ViewerChunks? && env.scale != 1 {
      forall x, z | InMap(x) && InMap(z)
        ensures TileKey(m.holder.world, ZoomedOrigin(WorldAt(ViewStart(playerX, env.scale), x, env.scale)),
                        ZoomedOrigin(WorldAt(ViewStart(playerZ, env.scale), z, env.scale))) in effects[0].keys
      {
        ZoomedKeysCoverFetchedTiles(m.holder.world, ViewStart(playerX, env.scale), ViewStart(playerZ, env.scale), env.scale, x, z);
      }
    }
  }

  /** In the frame of `update(provider)` and `respawn`, which pass the holder's own
      coordinates, the four 1:1 keys are those of the tiles the image is stitched from. */
  lemma HolderFrameKeysMatchTiles(m: Minimap)
    ensures OneToOneKeys(m.holder.world, m.holder.x, m.holder.z) == FetchedKeys(m.holder.world, Floor(m.holder.x), Floor(m.holder.z))
  {
    KeysMatchFetchedTiles(m.holder.world, m.holder.x, m.holder.z, Floor(m.holder.x), Floor(m.holder.z));
  }

  /** The frame of `respawn` differs from that of `update(provider)` only in declaring
      the 1:1 keys: at any other scale, or with another renderer, the two frames agree. */
  lemma RespawnFrameAddsOnlyKeys(m: Minimap, env: Env)
    requires m.Valid() && env.Valid()
    ensures var quiet, loud := m.FrameEffects(env, m.holder.x, m.holder.z, false), m.FrameEffects(env, m.holder.x, m.holder.z, true);
      if m.primaryLayer.renderer.value == WorldCache && env.scale == 1
      then loud == [ViewerChunks(m.holder.id, OneToOneKeys(m.holder.world, m.holder.x, m.holder.z))] + quiet
      else loud == quiet
  {
    var rest := m.LayerEffects(env, m.holder.x, m.holder.z);
    var quietKeys, loudKeys := m.KeyEffects(env, m.holder.x, m.holder.z, false), m.KeyEffects(env, m.holder.x, m.holder.z, true);
    assert m.FrameEffects(env, m.holder.x, m.holder.z, false) == quietKeys + rest;
    assert m.FrameEffects(env, m.holder.x, m.holder.z, true) == loudKeys + rest;
    if m.primaryLayer.renderer.value == WorldCache && env.scale == 1 {
      assert quietKeys == [];
      assert quietKeys + rest == rest;
    } else {
      assert quietKeys == loudKeys;
    }
  }
}
