/**
 * The favorites list as values: the list `saveFavorite` builds by appending
 * and the list `removeFavorite` builds by filtering. Names are compared by
 * exact string equality, with no normalisation of case or blanks.
 */
module Favorites {

  /** No name occurs twice. */
  predicate NoDuplicates(xs: seq<string>) {
    forall i, j :: 0 <= i < j < |xs| ==> xs[i] != xs[j]
  }

  /** The list after saving `city`: unchanged for the empty name or a name already present. */
  function Added(xs: seq<string>, city: string): (ys: seq<string>)
    ensures ys == xs || ys == xs + [city]
    ensures xs <= ys
    ensures city != "" ==> city in ys
  {
    if city == "" || city in xs then xs else xs + [city]
  }

  /** The list with every entry equal to `city` filtered out, in the original order. */
  function Without(xs: seq<string>, city: string): (ys: seq<string>)
    ensures |ys| <= |xs|
    ensures city !in ys
  {
    if xs == [] then []
    else if xs[0] == city then Without(xs[1..], city)
    else [xs[0]] + Without(xs[1..], city)
  }

  /** A name is in the filtered list exactly when it was in the list and is not `city`. */
  lemma {:induction false} WithoutMembership(xs: seq<string>, city: string, x: string)
    ensures x in Without(xs, city) <==> x in xs && x != city
  {
    if xs != [] {
      WithoutMembership(xs[1..], city, x);
      assert xs == [xs[0]] + xs[1..];
    }
  }

  /** Filtering drops every copy of `city` and nothing else. */
  lemma {:induction false} WithoutMultiset(xs: seq<string>, city: string)
    ensures multiset(Without(xs, city)) == multiset(xs)[city := 0]
  {
    if xs != [] {
      WithoutMultiset(xs[1..], city);
      assert xs == [xs[0]] + xs[1..];
    }
  }

  /** Filtering works piecewise, so the relative order of what remains is kept. */
  lemma {:induction false} WithoutConcat(xs: seq<string>, ys: seq<string>, city: string)
    ensures Without(xs + ys, city) == Without(xs, city) + Without(ys, city)
  {
    if xs == [] {
      assert xs + ys == ys;
    } else {
      assert (xs + ys)[1..] == xs[1..] + ys;
      WithoutConcat(xs[1..], ys, city);
    }
  }

  /** Removing a name that is not in the list leaves the list unchanged. */
  lemma {:induction false} WithoutAbsent(xs: seq<string>, city: string)
    requires city !in xs
    ensures Without(xs, city) == xs
  {
    if xs != [] {
      WithoutAbsent(xs[1..], city);
      assert xs == [xs[0]] + xs[1..];
    }
  }

  /** Removing twice is the same as removing once. */
  lemma WithoutIdempotent(xs: seq<string>, city: string)
    ensures Without(Without(xs, city), city) == Without(xs, city)
  {
    WithoutMembership(xs, city, city);
    WithoutAbsent(Without(xs, city), city);
  }

  /** Filtering keeps a list free of duplicates. */
  lemma {:induction false} WithoutNoDuplicates(xs: seq<string>, city: string)
    requires NoDuplicates(xs)
    ensures NoDuplicates(Without(xs, city))
  {
    if xs != [] {
      assert NoDuplicates(xs[1..]) by {
        forall i, j | 0 <= i < j < |xs[1..]| ensures xs[1..][i] != xs[1..][j] {
          assert xs[1..][i] == xs[i + 1] && xs[1..][j] == xs[j + 1];
        }
      }
      WithoutNoDuplicates(xs[1..], city);
      if xs[0] != city {
        WithoutMembership(xs[1..], city, xs[0]);
        assert xs[0] !in xs[1..];
        ConsNoDuplicates(xs[0], Without(xs[1..], city));
      }
    }
  }

  /** Putting a new name in front of a duplicate-free list keeps it duplicate-free. */
  lemma ConsNoDuplicates(x: string, ys: seq<string>)
    requires NoDuplicates(ys) && x !in ys
    ensures NoDuplicates([x] + ys)
  {
    var zs := [x] + ys;
    forall i, j | 0 <= i < j < |zs| ensures zs[i] != zs[j] {
      if i == 0 {
        assert zs[j] == ys[j - 1];
      } else {
        assert zs[i] == ys[i - 1] && zs[j] == ys[j - 1];
      }
    }
  }

  /** Saving keeps a list free of duplicates. */
  lemma AddedNoDuplicates(xs: seq<string>, city: string)
    requires NoDuplicates(xs)
    ensures NoDuplicates(Added(xs, city))
  {
    if city != "" && city !in xs {
      var ys := xs + [city];
      forall i, j | 0 <= i < j < |ys| ensures ys[i] != ys[j] {
        if j == |xs| {
          assert ys[i] == xs[i];
        } else {
          assert ys[i] == xs[i] && ys[j] == xs[j];
        }
      }
    }
  }

  /** A saved non-empty name is in the list, and saving it again changes nothing. */
  lemma AddedIdempotent(xs: seq<string>, city: string)
    ensures city != "" ==> city in Added(xs, city)
    ensures Added(Added(xs, city), city) == Added(xs, city)
  {
  }

  /** Saving a non-empty name twice leaves it in the list exactly once, if it was there at most once. */
  lemma AddedTwiceOnce(xs: seq<string>, city: string)
    requires multiset(xs)[city] <= 1 && city != ""
    ensures multiset(Added(Added(xs, city), city))[city] == 1
  {
    AddedIdempotent(xs, city);
    if city !in xs {
      assert multiset(xs + [city]) == multiset(xs) + multiset{city};
    }
  }

  /** Removing a freshly saved name gives back the list as it was before saving. */
  lemma RemoveUndoesSave(xs: seq<string>, city: string)
    requires city !in xs
    ensures Without(Added(xs, city), city) == xs
  {
    if city != "" {
      WithoutConcat(xs, [city], city);
      assert Without([city], city) == [] by {
        assert [city][1..] == [];
      }
    }
    WithoutAbsent(xs, city);
  }
}
