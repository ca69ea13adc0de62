/** Tab completion of the marker sub-commands (`MinimapBukkitCommand.matchPrefix`
    and `markerSuggestions`): case-insensitive prefix filtering of candidate names,
    and the sorted list of a minimap's custom marker names.  Strings are sequences
    of characters compared by code point, as `String.compareTo` does for characters
    of the Basic Multilingual Plane. */
module Suggestions {
  import opened Common
  import opened LinkedMaps
  import opened MarkerCommands

  // ---------------------------------------------------------------- case and prefixes

  /** `Character.toLowerCase` on the letters A to Z. */
  function LowerChar(c: char): (l: char)
    ensures 'A' <= c <= 'Z' ==> l as int == c as int + 32
    ensures !('A' <= c <= 'Z') ==> l == c
    ensures !('A' <= l <= 'Z')
  {
    if 'A' <= c <= 'Z' then (c as int + 32) as char else c
  }

  /** `toLowerCase(Locale.ENGLISH)`, character by character. */
  function ToLower(s: string): (r: string)
    ensures |r| == |s|
    ensures forall i | 0 <= i < |s| :: r[i] == LowerChar(s[i])
  {
    seq(|s|, i requires 0 <= i < |s| => LowerChar(s[i]))
  }

  /** Lower-casing twice is lower-casing once. */
  lemma ToLowerIdempotent(s: string)
    ensures ToLower(ToLower(s)) == ToLower(s)
  {
  }

  predicate StartsWith(s: string, prefix: string)
  {
    |prefix| <= |s| && s[..|prefix|] == prefix
  }

  /** Whether `candidate` is offered for what the player typed, ignoring case. */
  predicate Matches(candidate: string, prefix: string)
  {
    StartsWith(ToLower(candidate), ToLower(prefix))
  }

  /** `matchPrefix(candidates, prefix)`: the candidates that match, in their order. */
  function MatchPrefix(candidates: seq<string>, prefix: string): (r: seq<string>)
    ensures |r| <= |candidates|
    ensures forall c :: c in r <==> c in candidates && Matches(c, prefix)
  {
    if candidates == [] then []
    else (if Matches(candidates[0], prefix) then [candidates[0]] else []) + MatchPrefix(candidates[1..], prefix)
  }

  /** Filtering a concatenation filters each part: the kept candidates keep their
      relative order. */
  lemma {:induction false} MatchPrefixAppend(a: seq<string>, b: seq<string>, prefix: string)
    ensures MatchPrefix(a + b, prefix) == MatchPrefix(a, prefix) + MatchPrefix(b, prefix)
    decreases |a|
  {
    if a == [] {
      assert a + b == b;
    } else {
      assert (a + b)[0] == a[0];
      assert (a + b)[1..] == a[1..] + b;
      MatchPrefixAppend(a[1..], b, prefix);
    }
  }

  /** The case of the typed prefix does not matter, and the empty prefix keeps
      every candidate. */
  lemma MatchPrefixIgnoresCase(candidates: seq<string>, prefix: string)
    ensures MatchPrefix(candidates, ToLower(prefix)) == MatchPrefix(candidates, prefix)
    ensures MatchPrefix(candidates, "") == candidates
  {
    ToLowerIdempotent(prefix);
    MatchAllEmpty(candidates);
  }

  lemma {:induction false} MatchAllEmpty(candidates: seq<string>)
    ensures MatchPrefix(candidates, "") == candidates
    decreases |candidates|
  {
    if candidates != [] {
      assert Matches(candidates[0], "");
      MatchAllEmpty(candidates[1..]);
      assert [candidates[0]] + candidates[1..] == candidates;
    }
  }

  // ---------------------------------------------------------------- ordering

  /** `a.compareTo(b) <= 0`: character by character, a proper prefix first. */
  predicate NotAfter(a: string, b: string)
  {
    if a == [] then true
    else if b == [] then false
    else if a[0] != b[0] then a[0] < b[0]
    else NotAfter(a[1..], b[1..])
  }

  lemma {:induction false} NotAfterReflexive(a: string)
    ensures NotAfter(a, a)
    decreases |a|
  {
    if a != [] {
      NotAfterReflexive(a[1..]);
    }
  }

  lemma {:induction false} NotAfterTotal(a: string, b: string)
    ensures NotAfter(a, b) || NotAfter(b, a)
    decreases |a|
  {
    if a != [] && b != [] && a[0] == b[0] {
      NotAfterTotal(a[1..], b[1..]);
    }
  }

  lemma {:induction false} NotAfterTransitive(a: string, b: string, c: string)
    requires NotAfter(a, b) && NotAfter(b, c)
    ensures NotAfter(a, c)
    decreases |a|
  {
    if a != [] && b != [] && c != [] && a[0] == b[0] && b[0] == c[0] {
      NotAfterTransitive(a[1..], b[1..], c[1..]);
    }
  }

  lemma {:induction false} NotAfterAntisymmetric(a: string, b: string)
    requires NotAfter(a, b) && NotAfter(b, a)
    ensures a == b
    decreases |a|
  {
    if a != [] {
      NotAfterAntisymmetric(a[1..], b[1..]);
      assert a == [a[0]] + a[1..] && b == [b[0]] + b[1..];
    }
  }

  predicate Sorted(s: seq<string>)
  {
    forall i, j | 0 <= i < j < |s| :: NotAfter(s[i], s[j])
  }

  /** `x` put into the sorted `s` before the first element after it. */
  function Insert(x: string, s: seq<string>): (r: seq<string>)
    requires Sorted(s)
    ensures Sorted(r)
    ensures multiset(r) == multiset(s) + multiset{x}
  {
    if s == [] then [x]
    else if NotAfter(x, s[0]) then
      InsertFront(x, s);
      [x] + s
    else
      SortedTail(s);
      var rest := Insert(x, s[1..]);
      InsertLater(x, s, rest);
      [s[0]] + rest
  }

  /** A name not after the head of a sorted list goes in front of it. */
  lemma InsertFront(x: string, s: seq<string>)
    requires Sorted(s) && s != [] && NotAfter(x, s[0])
    ensures Sorted([x] + s)
    ensures multiset([x] + s) == multiset(s) + multiset{x}
  {
    forall y | y in multiset(s) ensures NotAfter(x, y) {
      SortedHead(s, y);
      NotAfterTransitive(x, s[0], y);
    }
    PrependSorted(x, s);
  }

  /** A name after the head of a sorted list goes into its tail. */
  lemma InsertLater(x: string, s: seq<string>, rest: seq<string>)
    requires Sorted(s) && s != [] && !NotAfter(x, s[0])
    requires Sorted(rest) && multiset(rest) == multiset(s[1..]) + multiset{x}
    ensures Sorted([s[0]] + rest)
    ensures multiset([s[0]] + rest) == multiset(s) + multiset{x}
  {
    NotAfterTotal(x, s[0]);
    SortedTail(s);
    forall y | y in multiset(rest) ensures NotAfter(s[0], y) {
      if y != x {
        assert y in multiset(s);
        SortedHead(s, y);
      }
    }
    PrependSorted(s[0], rest);
    assert multiset([s[0]] + rest) == multiset{s[0]} + multiset(s[1..]) + multiset{x};
  }

  /** A name that comes before every element of a sorted list can be put in front of it. */
  lemma PrependSorted(x: string, s: seq<string>)
    requires Sorted(s)
    requires forall y | y in multiset(s) :: NotAfter(x, y)
    ensures Sorted([x] + s)
  {
    forall i, j | 0 <= i < j < |[x] + s| ensures NotAfter(([x] + s)[i], ([x] + s)[j]) {
      if i == 0 {
        assert ([x] + s)[j] == s[j - 1];
        assert s[j - 1] in multiset(s);
      } else {
        assert ([x] + s)[i] == s[i - 1] && ([x] + s)[j] == s[j - 1];
      }
    }
  }

  /** `sorted()`: an arrangement of `s` in ascending order. */
  function Sort(s: seq<string>): (r: seq<string>)
    ensures Sorted(r)
    ensures multiset(r) == multiset(s)
  {
    if s == [] then []
    else
      assert s == [s[0]] + s[1..];
      Insert(s[0], Sort(s[1..]))
  }

  /** Two sorted arrangements of the same names are the same list, so the stable
      sort of the source and `Sort` agree. */
  lemma {:induction false} SortedUnique(a: seq<string>, b: seq<string>)
    requires Sorted(a) && Sorted(b) && multiset(a) == multiset(b)
    ensures a == b
    decreases |a|
  {
    if a != [] {
      SameHead(a, b);
      SortedTail(a);
      SortedTail(b);
      SortedUnique(a[1..], b[1..]);
      assert a == [a[0]] + a[1..] && b == [b[0]] + b[1..];
    }
  }

  /** Sorted arrangements of the same names start with the same name. */
  lemma SameHead(a: seq<string>, b: seq<string>)
    requires Sorted(a) && Sorted(b) && multiset(a) == multiset(b) && a != []
    ensures b != [] && a[0] == b[0]
  {
    assert a[0] in multiset(b);
    assert b[0] in multiset(a);
    SortedHead(a, b[0]);
    SortedHead(b, a[0]);
    NotAfterAntisymmetric(a[0], b[0]);
  }

  /** The first element of a sorted list comes before all of them. */
  lemma SortedHead(s: seq<string>, x: string)
    requires Sorted(s) && x in multiset(s)
    ensures NotAfter(s[0], x)
  {
    var i :| 0 <= i < |s| && s[i] == x;
    if i == 0 {
      NotAfterReflexive(x);
    }
  }

  /** Dropping the first element of a sorted list leaves a sorted list of the rest. */
  lemma SortedTail(s: seq<string>)
    requires Sorted(s) && s != []
    ensures Sorted(s[1..])
    ensures multiset(s[1..]) == multiset(s) - multiset{s[0]}
  {
    assert s == [s[0]] + s[1..];
  }

  // ---------------------------------------------------------------- marker names

  /** The names of `keys` that are not reserved, in order. */
  function CustomNames(keys: seq<string>): (r: seq<string>)
    ensures forall k :: k in r <==> k in keys && !Reserved(k)
    ensures NoDuplicates(keys) ==> NoDuplicates(r)
  {
    if keys == [] then []
    else
      var rest := CustomNames(keys[1..]);
      assert forall k | k in keys[1..] :: k in keys;
      if Reserved(keys[0]) then rest
      else
        assert NoDuplicates(keys) ==> keys[0] !in keys[1..] by {
          if NoDuplicates(keys) {
            forall i | 0 <= i < |keys[1..]| ensures keys[1..][i] != keys[0] {
              assert keys[1..][i] == keys[i + 1];
            }
          }
        }
        [keys[0]] + rest
  }

  /** `markerSuggestions(sender, prefix)`: nothing when the sender has no minimap
      (`layers` is `None`, also for a sender that is not a player); otherwise the
      custom marker names that match the prefix, sorted, each once. */
  function MarkerSuggestions(layers: Option<LinkedMap<SecondaryLayer>>, prefix: string): (r: seq<string>)
    requires layers.Some? ==> layers.value.Valid()
    ensures layers.None? ==> r == []
    ensures Sorted(r)
    ensures forall name :: name in r <==>
      layers.Some? && name in layers.value.entries && !Reserved(name) && Matches(name, prefix)
    ensures multiset(r) == if layers.None? then multiset{} else multiset(MatchPrefix(CustomNames(layers.value.keys), prefix))
  {
    if layers.None? then []
    else
      var kept := MatchPrefix(CustomNames(layers.value.keys), prefix);
      SameElements(Sort(kept), kept);
      Sort(kept)
  }

  /** Arrangements of the same elements have the same members. */
  lemma SameElements(a: seq<string>, b: seq<string>)
    requires multiset(a) == multiset(b)
    ensures forall x :: x in a <==> x in b
  {
    forall x ensures x in a <==> x in b {
      assert x in a <==> x in multiset(a);
      assert x in b <==> x in multiset(b);
    }
  }

  /** No name is suggested twice. */
  lemma SuggestionsDistinct(layers: Option<LinkedMap<SecondaryLayer>>, prefix: string)
    requires layers.Some? ==> layers.value.Valid()
    ensures NoDuplicates(MarkerSuggestions(layers, prefix))
  {
    var r := MarkerSuggestions(layers, prefix);
    if layers.Some? {
      var names := CustomNames(layers.value.keys);
      var kept := MatchPrefix(names, prefix);
      SubsequenceDistinct(names, prefix);
      forall x ensures multiset(r)[x] <= 1 {
        DistinctCount(kept, x);
      }
      CountedDistinct(r);
    }
  }

  lemma {:induction false} SubsequenceDistinct(names: seq<string>, prefix: string)
    requires NoDuplicates(names)
    ensures NoDuplicates(MatchPrefix(names, prefix))
    decreases |names|
  {
    if names != [] {
      assert names[0] !in names[1..] by {
        forall i | 0 <= i < |names[1..]| ensures names[1..][i] != names[0] {
          assert names[1..][i] == names[i + 1];
        }
      }
      assert NoDuplicates(names[1..]) by {
        forall a, b | 0 <= a < b < |names[1..]| ensures names[1..][a] != names[1..][b] {
          assert names[1..][a] == names[a + 1] && names[1..][b] == names[b + 1];
        }
      }
      SubsequenceDistinct(names[1..], prefix);
    }
  }

  /** A sequence in which nothing occurs twice has no repeats. */
  lemma {:induction false} CountedDistinct(s: seq<string>)
    requires forall x :: multiset(s)[x] <= 1
    ensures NoDuplicates(s)
    decreases |s|
  {
    if s != [] {
      var rest := s[1..];
      assert s == [s[0]] + rest;
      assert multiset(s) == multiset{s[0]} + multiset(rest);
      assert forall x :: multiset(rest)[x] <= multiset(s)[x];
      CountedDistinct(rest);
      assert multiset(s)[s[0]] == 1 + multiset(rest)[s[0]];
      assert multiset(rest)[s[0]] == 0;
      assert s[0] !in multiset(rest);
      forall i, j | 0 <= i < j < |s| ensures s[i] != s[j] {
        assert s[j] == rest[j - 1];
        if i > 0 {
          assert s[i] == rest[i - 1];
        }
      }
    }
  }

  lemma {:induction false} DistinctCount(s: seq<string>, x: string)
    requires NoDuplicates(s)
    ensures multiset(s)[x] <= 1
    decreases |s|
  {
    if s != [] {
      assert s == [s[0]] + s[1..];
      assert NoDuplicates(s[1..]) by {
        forall a, b | 0 <= a < b < |s[1..]| ensures s[1..][a] != s[1..][b] {
          assert s[1..][a] == s[a + 1] && s[1..][b] == s[b + 1];
        }
      }
      DistinctCount(s[1..], x);
      if s[0] == x {
        assert x !in s[1..] by {
          forall i | 0 <= i < |s[1..]| ensures s[1..][i] != x {
            assert s[1..][i] == s[i + 1];
          }
        }
      }
    }
  }
}
