/** The passenger registry (`PassengerRewriter`): for each vehicle entity, the
    client-side entities (minimap layers) that ride it, and the rewrite of outgoing
    set-passengers packets so that those entities stay mounted.  Entity ids are
    unbounded integers. */
module Passengers {
  import opened LinkedMaps

  // ---------------------------------------------------------------- merging

  /** `acc` followed by the elements of `xs` that are not already present, each
      once, in the order of `xs`: what the append loops of `mergePassengers` build. */
  function AppendNew(acc: seq<int>, xs: seq<int>): (r: seq<int>)
    ensures |acc| <= |r| && r[..|acc|] == acc
    ensures forall x :: x in r <==> x in acc || x in xs
    ensures NoDuplicates(acc) ==> NoDuplicates(r)
    ensures (forall x | x in xs :: x in acc) ==> r == acc
    decreases |xs|
  {
    if xs == [] then acc
    else
      var last := xs[|xs| - 1];
      var prev := AppendNew(acc, xs[..|xs| - 1]);
      assert forall x :: x in xs <==> x in xs[..|xs| - 1] || x == last;
      if last in prev then prev else prev + [last]
  }

  /** The merged passenger list: `existing` without repeats, then the new ids of `extra`. */
  function Merged(existing: seq<int>, extra: seq<int>): (r: seq<int>)
    ensures NoDuplicates(r)
    ensures forall x :: x in r <==> x in existing || x in extra
  {
    AppendNew(AppendNew([], existing), extra)
  }

  /** The result of `mergePassengers`: the packet's own array (`Original`), or a new
      array holding `list`. */
  datatype MergeOutcome = Original | Fresh(list: seq<int>)

  /** The passengers a packet carries after the merge. */
  function Delivered(existing: seq<int>, outcome: MergeOutcome): seq<int>
  {
    if outcome.Original? then existing else outcome.list
  }

  /** `mergePassengers` with the shortcut comparing the merged list with `existing`
      itself rather than its length: the packet's own array is kept when there is
      nothing to merge, or when it has no repeats and already carries every extra id;
      otherwise the packet gets the merged list.  Every passenger of either input is
      delivered. */
  function Merge(existing: seq<int>, extra: seq<int>): (o: MergeOutcome)
    ensures o.Original? <==> extra == [] || (NoDuplicates(existing) && forall e | e in extra :: e in existing)
    ensures o.Original? && extra != [] ==> Merged(existing, extra) == existing
    ensures o.Fresh? ==> o.list == Merged(existing, extra)
    ensures forall e | e in existing || e in extra :: e in Delivered(existing, o)
  {
    if extra == [] then Original
    else
      var merged := Merged(existing, extra);
      MergedIsExisting(existing, extra);
      if merged == existing then Original else Fresh(merged)
  }

  /** The merge changes nothing exactly when `existing` has no repeats and already
      carries every extra id. */
  lemma MergedIsExisting(existing: seq<int>, extra: seq<int>)
    ensures Merged(existing, extra) == existing <==> NoDuplicates(existing) && forall e | e in extra :: e in existing
  {
    if NoDuplicates(existing) {
      DeduplicateDistinct(existing);
    }
  }

  /** `mergePassengers` as the source writes it: the shortcut compares the merged
      size with the length of `existing`, repeats included. */
  function MergeAsWritten(existing: seq<int>, extra: seq<int>): MergeOutcome
  {
    if extra == [] then Original
    else
      var merged := Merged(existing, extra);
      if |merged| == |existing| then Original else Fresh(merged)
  }

  /** A packet carrying the same passenger twice and a registered passenger that is
      not on it: the shortcut keeps the packet's array and the registered passenger
      is not delivered; the corrected merge delivers it. */
  lemma AsWrittenLosesPassenger()
    ensures MergeAsWritten([1, 1], [2]) == Original
    ensures 2 !in Delivered([1, 1], MergeAsWritten([1, 1], [2]))
    ensures 2 in Delivered([1, 1], Merge([1, 1], [2]))
  {
    assert AppendNew([], [1]) == [1];
    assert [1, 1][..1] == [1];
    assert AppendNew([], [1, 1]) == [1];
    assert [2][..0] == [];
    assert Merged([1, 1], [2]) == [1, 2];
  }

  /** A packet carrying a passenger twice whose registered passengers are all on it is
      deduplicated by the source's shortcut and by the corrected one alike. */
  lemma DuplicatePacketDeduplicated()
    ensures MergeAsWritten([1, 1], [1]) == Fresh([1])
    ensures Merge([1, 1], [1]) == Fresh([1])
  {
    assert AppendNew([], [1]) == [1];
    assert [1, 1][..1] == [1];
    assert AppendNew([], [1, 1]) == [1];
    assert [1][..0] == [];
    assert Merged([1, 1], [1]) == [1];
  }

  /** The correction is confined to the bug: the source's shortcut and the corrected
      one disagree exactly when the source's result misses a registered passenger. */
  lemma AsWrittenDiffersOnlyWhenLosing(existing: seq<int>, extra: seq<int>)
    ensures MergeAsWritten(existing, extra) != Merge(existing, extra)
      <==> exists e | e in extra :: e !in Delivered(existing, MergeAsWritten(existing, extra))
  {
    if extra != [] {
      var deduplicated := AppendNew([], existing);
      var merged := Merged(existing, extra);
      AppendNewLength([], existing);
      MergedIsExisting(existing, extra);
      if |merged| == |existing| && merged != existing {
        // The shortcut keeps `existing`, which must then have repeats, so `extra`
        // added an id that `existing` lacks.
        assert |deduplicated| < |existing|;
        var e := merged[|deduplicated|];
        assert merged[..|deduplicated|] == deduplicated;
        assert e !in deduplicated by {
          forall i | 0 <= i < |deduplicated| ensures deduplicated[i] != e {
            assert deduplicated[i] == merged[i];
          }
        }
        assert e in extra && e !in existing;
      }
    }
  }

  /** `AppendNew` adds at most one element per element of `xs`, and exactly that many
      only when `xs` has no repeats and shares nothing with `acc`. */
  lemma {:induction false} AppendNewLength(acc: seq<int>, xs: seq<int>)
    ensures |AppendNew(acc, xs)| <= |acc| + |xs|
    ensures |AppendNew(acc, xs)| == |acc| + |xs| ==> NoDuplicates(xs) && forall x | x in xs :: x !in acc
    decreases |xs|
  {
    if xs != [] {
      var init, last := xs[..|xs| - 1], xs[|xs| - 1];
      AppendNewLength(acc, init);
      SplitLast(xs);
      if |AppendNew(acc, xs)| == |acc| + |xs| {
        assert last !in AppendNew(acc, init);
        forall i, j | 0 <= i < j < |xs| ensures xs[i] != xs[j] {
          if j < |xs| - 1 {
            assert xs[i] == init[i] && xs[j] == init[j];
          } else {
            assert xs[i] in init;
          }
        }
      }
    }
  }

  /** On packets without repeated passengers, as in every packet the server builds
      from an entity's passenger list, the source's shortcut and the corrected one agree. */
  lemma AsWrittenAgreesWithoutRepeats(existing: seq<int>, extra: seq<int>)
    requires NoDuplicates(existing)
    ensures MergeAsWritten(existing, extra) == Merge(existing, extra)
  {
    DeduplicateDistinct(existing);
  }

  /** Removing repeats from a sequence without repeats changes nothing. */
  lemma {:induction false} DeduplicateDistinct(s: seq<int>)
    requires NoDuplicates(s)
    ensures AppendNew([], s) == s
    decreases |s|
  {
    if s != [] {
      var init := s[..|s| - 1];
      DeduplicateDistinct(init);
      assert s[|s| - 1] !in init by {
        forall i | 0 <= i < |init| ensures init[i] != s[|s| - 1] {
          assert init[i] == s[i];
        }
      }
      assert init + [s[|s| - 1]] == s;
    }
  }

  /** Every id of `acc` precedes every id `AppendNew` adds, and the added ids keep the
      order of their first occurrence in `xs`: positions in the result follow first
      positions in `acc + xs`. */
  lemma {:induction false} AppendNewOrder(acc: seq<int>, xs: seq<int>)
    requires NoDuplicates(acc)
    ensures FirstOccurrenceOrder(AppendNew(acc, xs), acc + xs)
    decreases |xs|
  {
    var r := AppendNew(acc, xs);
    if xs == [] {
      assert acc + xs == acc && r == acc;
      DistinctInOrder(acc);
    } else {
      var init := xs[..|xs| - 1];
      var last := xs[|xs| - 1];
      var prev := AppendNew(acc, init);
      AppendNewOrder(acc, init);
      SplitLast(xs);
      assert acc + xs == (acc + init) + [last];
      if last in prev {
        assert r == prev;
        OrderKeptByAppend(prev, acc + init, last);
      } else {
        assert r == prev + [last];
        assert last !in acc + init;
        OrderExtended(prev, acc + init, last);
      }
    }
  }

  lemma SplitLast(xs: seq<int>)
    requires xs != []
    ensures xs == xs[..|xs| - 1] + [xs[|xs| - 1]]
  {
  }

  /** A sequence without repeats lists its elements in the order of their first positions. */
  lemma DistinctInOrder(s: seq<int>)
    requires NoDuplicates(s)
    ensures FirstOccurrenceOrder(s, s)
  {
    forall i, j | 0 <= i < j < |s| ensures IndexOf(s, s[i]) < IndexOf(s, s[j]) {
      IndexOfDistinct(s, i);
      IndexOfDistinct(s, j);
    }
  }

  /** Appending to `s` keeps the first positions of what `r` already holds. */
  lemma OrderKeptByAppend(r: seq<int>, s: seq<int>, last: int)
    requires FirstOccurrenceOrder(r, s)
    ensures FirstOccurrenceOrder(r, s + [last])
  {
    forall i, j | 0 <= i < j < |r| ensures IndexOf(s + [last], r[i]) < IndexOf(s + [last], r[j]) {
      IndexOfExtended(s, [last], r[i]);
      IndexOfExtended(s, [last], r[j]);
    }
  }

  /** A new element appended to both sides comes after everything before it. */
  lemma OrderExtended(r: seq<int>, s: seq<int>, last: int)
    requires FirstOccurrenceOrder(r, s) && last !in s
    ensures FirstOccurrenceOrder(r + [last], s + [last])
  {
    var r' := r + [last];
    IndexOfAppended(s, last);
    forall i, j | 0 <= i < j < |r'| ensures IndexOf(s + [last], r'[i]) < IndexOf(s + [last], r'[j]) {
      assert r'[i] == r[i] && r[i] in s;
      IndexOfExtended(s, [last], r[i]);
      if j < |r| {
        assert r'[j] == r[j];
        IndexOfExtended(s, [last], r[j]);
      }
    }
  }

  /** The merged list is `existing` without repeats, in the order of first
      occurrence, followed by the new ids of `extra` in their order. */
  lemma MergedOrder(existing: seq<int>, extra: seq<int>)
    ensures var deduplicated := AppendNew([], existing);
      && FirstOccurrenceOrder(deduplicated, existing)
      && Merged(existing, extra)[..|deduplicated|] == deduplicated
      && FirstOccurrenceOrder(Merged(existing, extra), deduplicated + extra)
  {
    AppendNewOrder([], existing);
    assert [] + existing == existing;
    AppendNewOrder(AppendNew([], existing), extra);
  }

  /** The elements of `r` come from `s` and appear in the order of their first
      positions in `s`. */
  predicate FirstOccurrenceOrder(r: seq<int>, s: seq<int>)
  {
    (forall x | x in r :: x in s)
    && forall i, j | 0 <= i < j < |r| :: IndexOf(s, r[i]) < IndexOf(s, r[j])
  }

  /** In a sequence without repeats, an element's first position is its position. */
  lemma IndexOfDistinct(s: seq<int>, i: nat)
    requires NoDuplicates(s) && i < |s|
    ensures IndexOf(s, s[i]) == i
  {
  }

  /** Appending does not move the first position of an element already present. */
  lemma IndexOfExtended(s: seq<int>, t: seq<int>, x: int)
    requires x in s
    ensures IndexOf(s + t, x) == IndexOf(s, x)
  {
    var i := IndexOf(s, x);
    var k := IndexOf(s + t, x);
    assert (s + t)[i] == x;
  }

  /** An element appended to a sequence that lacks it sits at the end. */
  lemma IndexOfAppended(s: seq<int>, x: int)
    requires x !in s
    ensures IndexOf(s + [x], x) == |s|
  {
    var k := IndexOf(s + [x], x);
  }

  /** `mergePassengers(existing, extra)`, with the corrected size shortcut. */
  method MergePassengers(existing: seq<int>, extra: seq<int>) returns (outcome: MergeOutcome)
    ensures outcome == Merge(existing, extra)
  {
    if |extra| == 0 {
      return Original;
    }
    var merged: seq<int> := [];
    for i := 0 to |existing|
      invariant merged == AppendNew([], existing[..i])
    {
      assert existing[..i + 1][..i] == existing[..i];
      if existing[i] !in merged {
        merged := merged + [existing[i]];
      }
    }
    assert existing[..|existing|] == existing;
    ghost var base := merged;
    for i := 0 to |extra|
      invariant merged == AppendNew(base, extra[..i])
    {
      assert extra[..i + 1][..i] == extra[..i];
      if extra[i] !in merged {
        merged := merged + [extra[i]];
      }
    }
    assert extra[..|extra|] == extra;
    if merged == existing {
      outcome := Original;
    } else {
      outcome := Fresh(merged);
    }
  }

  // ---------------------------------------------------------------- registry

  /** Every registered vehicle has a non-empty passenger list without repeats. */
  ghost predicate WellFormed(registry: map<int, seq<int>>)
  {
    forall v | v in registry :: registry[v] != [] && NoDuplicates(registry[v])
  }

  /** `IntList.rem(x)`: drops the first occurrence of `x`, if any. */
  function RemoveFirst(s: seq<int>, x: int): (r: seq<int>)
    ensures x !in s ==> r == s
    ensures x in s ==> |r| == |s| - 1 && exists i | 0 <= i < |s| && s[i] == x :: r == s[..i] + s[i + 1..]
    ensures NoDuplicates(s) ==> NoDuplicates(r) && forall y :: y in r <==> y in s && y != x
  {
    if x !in s then s
    else
      var i := IndexOf(s, x);
      DropAtIfDistinct(s, i);
      s[..i] + s[i + 1..]
  }

  lemma DropAtIfDistinct(s: seq<int>, i: nat)
    requires i < |s|
    ensures NoDuplicates(s) ==> NoDuplicates(s[..i] + s[i + 1..])
    ensures NoDuplicates(s) ==> forall x :: x in s[..i] + s[i + 1..] <==> x in s && x != s[i]
  {
    if NoDuplicates(s) {
      DropAt(s, i);
    }
  }

  /** The registry after `addPassenger(vehicle, entity)`. */
  function Added(registry: map<int, seq<int>>, vehicle: int, entity: int): map<int, seq<int>>
  {
    var list := if vehicle in registry then registry[vehicle] else [];
    registry[vehicle := if entity in list then list else list + [entity]]
  }

  /** The registry after `removePassenger(vehicle, entity)`. */
  function Removed(registry: map<int, seq<int>>, vehicle: int, entity: int): map<int, seq<int>>
  {
    if vehicle !in registry then registry
    else
      var list := RemoveFirst(registry[vehicle], entity);
      if list == [] then registry - {vehicle} else registry[vehicle := list]
  }

  /** After `addPassenger(v, e)` the registry is still well formed, `v` carries `e`
      exactly once after its earlier passengers, and no other vehicle changes. */
  lemma AddRegisters(registry: map<int, seq<int>>, vehicle: int, entity: int)
    requires WellFormed(registry)
    ensures var after := Added(registry, vehicle, entity);
      && WellFormed(after)
      && vehicle in after && entity in after[vehicle]
      && multiset(after[vehicle])[entity] == 1
      && (vehicle in registry ==> after[vehicle][..|registry[vehicle]|] == registry[vehicle])
      && forall v | v != vehicle :: (v in after <==> v in registry) && (v in registry ==> after[v] == registry[v])
  {
    var after := Added(registry, vehicle, entity);
    var list := if vehicle in registry then registry[vehicle] else [];
    assert NoDuplicates(after[vehicle]);
    DistinctCountsOnce(after[vehicle], entity);
  }

  /** An element of a sequence without repeats occurs in it once. */
  lemma {:induction false} DistinctCountsOnce(s: seq<int>, x: int)
    requires NoDuplicates(s) && x in s
    ensures multiset(s)[x] == 1
    decreases |s|
  {
    assert s == [s[0]] + s[1..];
    if s[0] == x {
      assert x !in s[1..] by {
        forall i | 0 <= i < |s[1..]| ensures s[1..][i] != x {
          assert s[1..][i] == s[i + 1];
        }
      }
    } else {
      DistinctCountsOnce(s[1..], x);
    }
  }

  /** Adding the same passenger twice is the same as adding it once. */
  lemma AddIdempotent(registry: map<int, seq<int>>, vehicle: int, entity: int)
    ensures Added(Added(registry, vehicle, entity), vehicle, entity) == Added(registry, vehicle, entity)
  {
  }

  /** Removing from a vehicle without a list changes nothing. */
  lemma RemoveUnregistered(registry: map<int, seq<int>>, vehicle: int, entity: int)
    requires vehicle !in registry
    ensures Removed(registry, vehicle, entity) == registry
  {
  }

  /** After `removePassenger(v, e)` the registry is still well formed, `v` no longer
      carries `e`, `v` is dropped exactly when `e` was its only passenger, and no other
      vehicle changes. */
  lemma RemoveUnregisters(registry: map<int, seq<int>>, vehicle: int, entity: int)
    requires WellFormed(registry)
    ensures var after := Removed(registry, vehicle, entity);
      && WellFormed(after)
      && (vehicle in after ==> entity !in after[vehicle])
      && (vehicle in after ==> forall x :: x in after[vehicle] <==> x in registry[vehicle] && x != entity)
      && (vehicle in registry ==> (vehicle !in after <==> registry[vehicle] == [entity]))
      && forall v | v != vehicle :: (v in after <==> v in registry) && (v in registry ==> after[v] == registry[v])
  {
    if vehicle in registry {
      var list := registry[vehicle];
      var rest := RemoveFirst(list, entity);
    }
  }

  /** Adding a passenger a vehicle did not carry and removing it again restores the
      registry. */
  lemma AddThenRemove(registry: map<int, seq<int>>, vehicle: int, entity: int)
    requires WellFormed(registry)
    requires vehicle in registry ==> entity !in registry[vehicle]
    ensures Removed(Added(registry, vehicle, entity), vehicle, entity) == registry
  {
    var list := if vehicle in registry then registry[vehicle] else [];
    var grown := list + [entity];
    var shrunk := RemoveFirst(grown, entity);
    IndexOfAppended(list, entity);
    assert grown[..|list|] == list;
    assert shrunk == list;
    if vehicle !in registry {
      assert Added(registry, vehicle, entity) - {vehicle} == registry;
    }
  }

  class PassengerRewriter {
    /** Vehicle id to the ids riding it, in the order they were added. */
    var passengers: map<int, seq<int>>

    ghost predicate Valid()
      reads this
    {
      WellFormed(passengers)
    }

    constructor ()
      ensures Valid() && passengers == map[]
    {
      passengers := map[];
    }

    /** `addPassenger(vehicle, entity)`. */
    method AddPassenger(vehicle: int, entity: int)
      requires Valid()
      modifies this
      ensures Valid()
      ensures passengers == Added(old(passengers), vehicle, entity)
    {
      AddRegisters(passengers, vehicle, entity);
      var list: seq<int> := if vehicle in passengers then passengers[vehicle] else [];
      if entity !in list {
        list := list + [entity];
      }
      passengers := passengers[vehicle := list];
    }

    /** `removePassenger(vehicle, entity)`. */
    method RemovePassenger(vehicle: int, entity: int)
      requires Valid()
      modifies this
      ensures Valid()
      ensures passengers == Removed(old(passengers), vehicle, entity)
    {
      RemoveUnregisters(passengers, vehicle, entity);
      if vehicle !in passengers {
        return;
      }
      var list := RemoveFirst(passengers[vehicle], entity);
      if list == [] {
        passengers := passengers - {vehicle};
      } else {
        passengers := passengers[vehicle := list];
      }
    }

    /** The rewrite decision of `write` for a set-passengers packet of `vehicle`
        carrying `packetPassengers`: the packet is rewritten exactly when the vehicle
        has registered passengers and the packet either lacks one of them or carries
        a passenger twice, and then carries the merged list; every registered
        passenger ends up on the packet. */
    method Write(vehicle: int, packetPassengers: seq<int>) returns (sent: seq<int>, rewritten: bool)
      requires Valid()
      ensures rewritten <==>
        vehicle in passengers && !(NoDuplicates(packetPassengers) && forall e | e in passengers[vehicle] :: e in packetPassengers)
      ensures rewritten ==> sent == Merged(packetPassengers, passengers[vehicle]) && NoDuplicates(sent)
      ensures !rewritten ==> sent == packetPassengers
      ensures forall e | e in packetPassengers :: e in sent
      ensures vehicle in passengers ==> forall e | e in passengers[vehicle] :: e in sent
    {
      sent := packetPassengers;
      rewritten := false;
      if vehicle in passengers {
        var merged := MergePassengers(packetPassengers, passengers[vehicle]);
        if merged.Fresh? {
          sent := merged.list;
          rewritten := true;
        }
      }
    }
  }
}
