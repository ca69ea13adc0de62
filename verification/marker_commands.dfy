/** The marker sub-commands of `/minimap marker` (`MinimapBukkitCommand`), for one
    target player's minimap: the guards that decide whether a custom marker is added,
    removed, given a new icon or renamed, and the change each makes to the
    insertion-ordered map of secondary layers.  Senders, messages, permissions and
    saving are not modelled; a rejected command leaves the minimap untouched. */
module MarkerCommands {
  import opened Common
  import opened LinkedMaps
  import opened Minimaps

  /** Name of the layer showing the holder's own position. */
  const PlayerKey: string := "player"

  /** Names the commands refuse to add, remove or modify. */
  predicate Reserved(name: string)
  {
    name == PlayerKey || name == DeathPointKey
  }

  datatype Failure =
    | NameUnavailable   // add: reserved name
    | AlreadyExists     // add: name taken
    | LimitReached      // add: too many custom markers
    | CannotRemove      // remove: reserved name
    | CannotModify      // set: reserved name
    | NoSuchMarker      // remove, set: name absent

  /** What a command does to the layer map: the new map, or why it refused. */
  datatype Outcome = Applied(layers: LinkedMap<SecondaryLayer>) | Rejected(reason: Failure)

  /** Custom markers among the layers named by `keys`: marker layers under a name
      that is not reserved. */
  function CountCustom(keys: seq<string>, entries: map<string, SecondaryLayer>): (n: nat)
    requires forall k | k in keys :: k in entries
    ensures n <= |keys|
  {
    if keys == [] then 0
    else
      var last := keys[|keys| - 1];
      CountCustom(keys[..|keys| - 1], entries) + (if !Reserved(last) && entries[last].isMarker then 1 else 0)
  }

  /** The number of custom markers of a minimap. */
  function CustomMarkers(layers: LinkedMap<SecondaryLayer>): nat
    requires layers.Valid()
  {
    CountCustom(layers.keys, layers.entries)
  }

  /** Changing the value of a key outside `keys` does not change the count over `keys`. */
  lemma {:induction false} CountCustomFrame(keys: seq<string>, entries: map<string, SecondaryLayer>, k: string, v: SecondaryLayer)
    requires forall x | x in keys :: x in entries
    requires k !in keys
    ensures CountCustom(keys, entries[k := v]) == CountCustom(keys, entries)
    decreases |keys|
  {
    if keys != [] {
      CountCustomFrame(keys[..|keys| - 1], entries, k, v);
    }
  }

  /** The marker `handleMarkerAdd` creates: an icon marker tracking the block the
      holder stands on (coordinates cast to `int`), in the holder's world, drawn
      above the layers already present. */
  function NewMarker(icon: Icon, holder: Player, base: BaseLayer, stickToBorder: bool, layerCount: nat): (layer: SecondaryLayer)
    ensures layer.isMarker && layer.trackLocation && layer.keepOnEdge == stickToBorder
    ensures layer.renderer == Some(IconRenderer(icon)) && layer.base == base
    ensures layer.world == Some(holder.world)
    ensures layer.depth >= 0.05
  {
    SecondaryLayer(base, Some(IconRenderer(icon)), true, stickToBorder, Some(holder.world),
      Truncate(holder.x), Truncate(holder.z), 0.05 + layerCount as real * 0.01, true)
  }

  /** The guards and the insertion of `handleMarkerAdd`. */
  function AddMarker(layers: LinkedMap<SecondaryLayer>, name: string, layer: SecondaryLayer, limit: int): (o: Outcome)
    requires layers.Valid()
    ensures o == Rejected(NameUnavailable) <==> Reserved(name)
    ensures o == Rejected(AlreadyExists) <==> !Reserved(name) && name in layers.entries
    ensures o == Rejected(LimitReached) <==> !Reserved(name) && name !in layers.entries && CustomMarkers(layers) >= limit
    ensures o.Applied? ==>
      o.layers.Valid() && o.layers.keys == layers.keys + [name] && o.layers.entries == layers.entries[name := layer]
  {
    if Reserved(name) then Rejected(NameUnavailable)
    else if name in layers.entries then Rejected(AlreadyExists)
    else if CustomMarkers(layers) >= limit then Rejected(LimitReached)
    else Applied(layers.Put(name, layer))
  }

  /** An accepted add inserts exactly one new marker, so the count of custom markers
      grows by one and stays within the limit. */
  lemma AddRespectsLimit(layers: LinkedMap<SecondaryLayer>, name: string, layer: SecondaryLayer, limit: int)
    requires layers.Valid() && layer.isMarker
    ensures var o := AddMarker(layers, name, layer, limit);
      o.Applied? ==> CustomMarkers(o.layers) == CustomMarkers(layers) + 1 <= limit
  {
    var o := AddMarker(layers, name, layer, limit);
    if o.Applied? {
      var keys := layers.keys + [name];
      assert keys[..|keys| - 1] == layers.keys;
      CountCustomFrame(layers.keys, layers.entries, name, layer);
    }
  }

  /** The guards and the deletion of `handleMarkerRemove`. */
  function RemoveMarker(layers: LinkedMap<SecondaryLayer>, name: string): (o: Outcome)
    requires layers.Valid()
    ensures o == Rejected(CannotRemove) <==> Reserved(name)
    ensures o == Rejected(NoSuchMarker) <==> !Reserved(name) && name !in layers.entries
    ensures o.Applied? ==> o.layers.Valid() && o.layers.entries == layers.entries - {name}
    ensures o.Applied? ==> exists i | 0 <= i < |layers.keys| && layers.keys[i] == name :: o.layers.keys == layers.keys[..i] + layers.keys[i + 1..]
  {
    if Reserved(name) then Rejected(CannotRemove)
    else if name !in layers.entries then Rejected(NoSuchMarker)
    else Applied(layers.Remove(name))
  }

  /** The guards of `modifyMarker`: why it refuses `name`, if it does. */
  function ModifyGuard(layers: LinkedMap<SecondaryLayer>, name: string): (f: Option<Failure>)
    ensures f == Some(CannotModify) <==> Reserved(name)
    ensures f == Some(NoSuchMarker) <==> !Reserved(name) && name !in layers.entries
    ensures f.None? <==> !Reserved(name) && name in layers.entries
  {
    if Reserved(name) then Some(CannotModify)
    else if name !in layers.entries then Some(NoSuchMarker)
    else None
  }

  /** The `icon` mode of `handleMarkerSet`: the marker's renderer becomes the icon;
      its name, position and order do not change. */
  function WithIcon(layers: LinkedMap<SecondaryLayer>, name: string, icon: Icon): (r: LinkedMap<SecondaryLayer>)
    requires layers.Valid() && name in layers.entries
    ensures r.Valid() && r.keys == layers.keys
    ensures r.entries == layers.entries[name := layers.entries[name].(renderer := Some(IconRenderer(icon)))]
  {
    layers.Put(name, layers.entries[name].(renderer := Some(IconRenderer(icon))))
  }

  /** The `name` mode of `handleMarkerSet`: the marker leaves its old name and is
      put under the new one, replacing whatever was there; the new name is not
      checked against the reserved names. */
  function Renamed(layers: LinkedMap<SecondaryLayer>, name: string, newName: string): (r: LinkedMap<SecondaryLayer>)
    requires layers.Valid() && name in layers.entries
    ensures r.Valid()
    ensures newName in r.entries && r.entries[newName] == layers.entries[name]
    ensures newName != name ==> name !in r.entries
    ensures forall k | k != name && k != newName :: k in r.entries <==> k in layers.entries
    ensures forall k | k != name && k != newName && k in layers.entries :: r.entries[k] == layers.entries[k]
  {
    var marker := layers.entries[name];
    layers.Remove(name).Put(newName, marker)
  }

  /** The `icon` mode, guards included. */
  function SetIcon(layers: LinkedMap<SecondaryLayer>, name: string, icon: Icon): Outcome
    requires layers.Valid()
  {
    match ModifyGuard(layers, name)
    case Some(reason) => Rejected(reason)
    case None => Applied(WithIcon(layers, name, icon))
  }

  /** The `name` mode, guards included. */
  function Rename(layers: LinkedMap<SecondaryLayer>, name: string, newName: string): Outcome
    requires layers.Valid()
  {
    match ModifyGuard(layers, name)
    case Some(reason) => Rejected(reason)
    case None => Applied(Renamed(layers, name, newName))
  }

  /** Setting the icon refuses reserved or missing names and otherwise changes only
      that marker's renderer. */
  lemma SetIconGuards(layers: LinkedMap<SecondaryLayer>, name: string, icon: Icon)
    requires layers.Valid()
    ensures SetIcon(layers, name, icon).Rejected? <==> Reserved(name) || name !in layers.entries
    ensures SetIcon(layers, name, icon).Applied? ==>
      SetIcon(layers, name, icon).layers == WithIcon(layers, name, icon)
  {
  }

  /** Renaming refuses reserved or missing old names; otherwise the old name is gone
      (unless it is also the new one) and the new name holds the same marker. */
  lemma RenameGuards(layers: LinkedMap<SecondaryLayer>, name: string, newName: string)
    requires layers.Valid()
    ensures Rename(layers, name, newName).Rejected? <==> Reserved(name) || name !in layers.entries
    ensures var o := Rename(layers, name, newName);
      o.Applied? ==>
        o.layers.Valid() && o.layers.entries[newName] == layers.entries[name] && (newName != name ==> name !in o.layers.entries)
  {
  }

  /** Renaming a custom marker to a reserved name is accepted and replaces the
      layer registered there, such as the death point. */
  lemma RenameOverwritesReserved(layers: LinkedMap<SecondaryLayer>, name: string)
    requires layers.Valid() && !Reserved(name) && name in layers.entries
    ensures var o := Rename(layers, name, DeathPointKey);
      o.Applied? && o.layers.entries[DeathPointKey] == layers.entries[name] && name !in o.layers.entries
  {
  }

  /** A rename to a fresh name moves the marker to the end of the order and keeps the
      number of layers. */
  lemma RenameToFreshNameMovesLast(layers: LinkedMap<SecondaryLayer>, name: string, newName: string)
    requires layers.Valid() && name in layers.entries && newName !in layers.entries
    ensures var r := Renamed(layers, name, newName);
      |r.keys| == |layers.keys| && r.keys[|r.keys| - 1] == newName
  {
    var removed := layers.Remove(name);
    RemoveShortens(layers, name);
    assert newName !in removed.entries;
    assert Renamed(layers, name, newName).keys == removed.keys + [newName];
  }

  // ---------------------------------------------------------------- commands on a minimap

  /** Why a command refused, if it did. */
  function FailureOf(o: Outcome): (f: Option<Failure>)
    ensures f.None? <==> o.Applied?
    ensures o.Rejected? ==> f == Some(o.reason)
  {
    if o.Rejected? then Some(o.reason) else None
  }

  /** The layer map after a command: unchanged when it refused. */
  function LayersAfter(o: Outcome, layers: LinkedMap<SecondaryLayer>): (r: LinkedMap<SecondaryLayer>)
    ensures o.Rejected? ==> r == layers
    ensures o.Applied? ==> r == o.layers
  {
    if o.Applied? then o.layers else layers
  }

  /** `handleMarkerAdd` for one target whose minimap is `m`.  `newBaseId` names the
      fresh client-side layer, `limit` and `stickToBorder` come from the configuration.
      On success the new layer is spawned and a frame follows. */
  method HandleMarkerAdd(m: Minimap, name: string, icon: Icon, newBaseId: nat, stickToBorder: bool, limit: int, env: Env)
    returns (failure: Option<Failure>, effects: seq<Effect>)
    requires m.Valid() && env.Valid()
    modifies m
    ensures m.Valid() && m.holder == old(m.holder) && m.screenPosition == old(m.screenPosition)
    ensures var o := AddMarker(old(m.secondaryLayers), name,
      NewMarker(icon, old(m.holder), BaseLayer(newBaseId, None), stickToBorder, |old(m.secondaryLayers.keys)|), limit);
      failure == FailureOf(o) && m.secondaryLayers == LayersAfter(o, old(m.secondaryLayers))
    ensures effects == if failure.Some? then [] else [SpawnLayer(newBaseId)] + m.FrameEffects(env, m.holder.x, m.holder.z, false)
  {
    ghost var o := AddMarker(m.secondaryLayers, name,
      NewMarker(icon, m.holder, BaseLayer(newBaseId, None), stickToBorder, |m.secondaryLayers.keys|), limit);
    effects := [];
    if name == PlayerKey || name == DeathPointKey {
      failure := Some(NameUnavailable);
    } else if name in m.secondaryLayers.entries {
      failure := Some(AlreadyExists);
    } else if CustomMarkers(m.secondaryLayers) >= limit {
      failure := Some(LimitReached);
    } else {
      effects := PlaceMarker(m, name, icon, newBaseId, stickToBorder, env);
      failure := None;
    }
  }

  /** The accepted branch of `handleMarkerAdd`: creates the marker layer, registers it
      under `name`, spawns it and sends a frame. */
  method PlaceMarker(m: Minimap, name: string, icon: Icon, newBaseId: nat, stickToBorder: bool, env: Env)
    returns (effects: seq<Effect>)
    requires m.Valid() && env.Valid() && name !in m.secondaryLayers.entries
    modifies m
    ensures m.Valid() && m.holder == old(m.holder) && m.screenPosition == old(m.screenPosition)
    ensures m.secondaryLayers == old(m.secondaryLayers).Put(name,
      NewMarker(icon, old(m.holder), BaseLayer(newBaseId, None), stickToBorder, |old(m.secondaryLayers.keys)|))
    ensures effects == [SpawnLayer(newBaseId)] + m.FrameEffects(env, m.holder.x, m.holder.z, false)
  {
    var iconBaseLayer := BaseLayer(newBaseId, None);
    var iconLayer := NewMarker(icon, m.holder, iconBaseLayer, stickToBorder, |m.secondaryLayers.keys|);
    var layers := m.secondaryLayers.Put(name, iconLayer);
    var frame := Install(m, layers, env);
    effects := [SpawnLayer(iconBaseLayer.id)] + frame;
  }

  /** `handleMarkerRemove` for one target whose minimap is `m`: on success the
      marker's layer is despawned and a frame follows. */
  method HandleMarkerRemove(m: Minimap, name: string, env: Env) returns (failure: Option<Failure>, effects: seq<Effect>)
    requires m.Valid() && env.Valid()
    modifies m
    ensures m.Valid() && m.holder == old(m.holder) && m.screenPosition == old(m.screenPosition)
    ensures var o := RemoveMarker(old(m.secondaryLayers), name);
      failure == FailureOf(o) && m.secondaryLayers == LayersAfter(o, old(m.secondaryLayers))
    ensures effects == if failure.Some? then [] else
      [DespawnLayer(old(m.secondaryLayers.entries[name]).base.id)] + m.FrameEffects(env, m.holder.x, m.holder.z, false)
  {
    if name == PlayerKey || name == DeathPointKey {
      return Some(CannotRemove), [];
    }
    var marker := m.secondaryLayers.Get(name);
    m.secondaryLayers := m.secondaryLayers.Remove(name);
    if marker.None? {
      return Some(NoSuchMarker), [];
    }
    var frame := m.UpdateDefault(env);
    failure := None;
    effects := [DespawnLayer(marker.value.base.id)] + frame;
  }

  /** `modifyMarker` with the `icon` change of `handleMarkerSet`. */
  method HandleMarkerSetIcon(m: Minimap, name: string, icon: Icon, env: Env) returns (failure: Option<Failure>, effects: seq<Effect>)
    requires m.Valid() && env.Valid()
    modifies m
    ensures m.Valid() && m.holder == old(m.holder) && m.screenPosition == old(m.screenPosition)
    ensures var o := SetIcon(old(m.secondaryLayers), name, icon);
      failure == FailureOf(o) && m.secondaryLayers == LayersAfter(o, old(m.secondaryLayers))
    ensures effects == if failure.Some? then [] else m.FrameEffects(env, m.holder.x, m.holder.z, false)
  {
    if name == PlayerKey || name == DeathPointKey {
      return Some(CannotModify), [];
    }
    var marker := m.secondaryLayers.Get(name);
    if marker.None? {
      return Some(NoSuchMarker), [];
    }
    var layers := m.secondaryLayers.Put(name, marker.value.(renderer := Some(IconRenderer(icon))));
    assert layers == WithIcon(m.secondaryLayers, name, icon);
    effects := Install(m, layers, env);
    failure := None;
  }

  /** `modifyMarker` with the `name` change of `handleMarkerSet`. */
  method HandleMarkerRename(m: Minimap, name: string, newName: string, env: Env) returns (failure: Option<Failure>, effects: seq<Effect>)
    requires m.Valid() && env.Valid()
    modifies m
    ensures m.Valid() && m.holder == old(m.holder) && m.screenPosition == old(m.screenPosition)
    ensures var o := Rename(old(m.secondaryLayers), name, newName);
      failure == FailureOf(o) && m.secondaryLayers == LayersAfter(o, old(m.secondaryLayers))
    ensures effects == if failure.Some? then [] else m.FrameEffects(env, m.holder.x, m.holder.z, false)
  {
    if name == PlayerKey || name == DeathPointKey {
      return Some(CannotModify), [];
    }
    var marker := m.secondaryLayers.Get(name);
    if marker.None? {
      return Some(NoSuchMarker), [];
    }
    var layers := m.secondaryLayers.Remove(name);
    layers := layers.Put(newName, marker.value);
    assert layers == Renamed(m.secondaryLayers, name, newName);
    effects := Install(m, layers, env);
    failure := None;
  }

  /** Puts the changed layer map in place and sends the frame of `update(provider)`. */
  method Install(m: Minimap, layers: LinkedMap<SecondaryLayer>, env: Env) returns (frame: seq<Effect>)
    requires m.Valid() && env.Valid() && layers.Valid()
    modifies m
    ensures m.Valid() && m.holder == old(m.holder) && m.screenPosition == old(m.screenPosition)
    ensures m.secondaryLayers == layers
    ensures frame == m.FrameEffects(env, m.holder.x, m.holder.z, false)
  {
    m.secondaryLayers := layers;
    frame := m.UpdateDefault(env);
  }
}
