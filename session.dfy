/**
 * The session controller: the state the application component holds and the
 * four handlers that change it (search, compare, save a favorite, remove a
 * favorite). Each handler runs to completion before the next starts; the
 * lookup it awaits is passed in as its already-known `Outcome`.
 */
module Session {
  import opened Wrappers
  import opened Lookup
  import opened Favorites

  /** The favorites list read at start-up: the stored list, or empty when nothing is stored. */
  function Load(stored: Option<seq<string>>): (xs: seq<string>)
    ensures stored.Some? ==> xs == stored.value
    ensures stored.None? ==> xs == []
  {
    if stored.Some? then stored.value else []
  }

  class Controller {
    /** The text in the input box. */
    var city: string
    /** The single-lookup record (single-result mode). */
    var weather: Option<WeatherRecord>
    /** The two comparison slots (comparison mode). */
    var left: Option<WeatherRecord>
    var right: Option<WeatherRecord>
    /** True when the next compare fills the left slot. */
    var toggle: bool
    var favorites: seq<string>
    /** The "favorites" entry of the browser's local storage; None while nothing was written. */
    ghost var persisted: Option<seq<string>>

    /** At most one of the two view modes is populated. */
    predicate ModesExclusive()
      reads this
    {
      weather.Some? ==> left.None? && right.None?
    }

    /** The stored entry, read back as at start-up, is the list in memory. */
    ghost predicate Synced()
      reads this
    {
      Load(persisted) == favorites
    }

    /** The session as it starts, given what local storage holds for "favorites". */
    constructor (stored: Option<seq<string>>)
      ensures city == "" && weather.None? && left.None? && right.None? && toggle
      ensures favorites == Load(stored) && persisted == stored
      ensures ModesExclusive() && Synced()
    {
      city := "";
      weather := None;
      left := None;
      right := None;
      toggle := true;
      favorites := Load(stored);
      persisted := stored;
    }

    /** Typing in the input box, or clicking a favorite, sets the city text. */
    method SetCity(c: string)
      requires Synced()
      modifies this
      ensures Synced()
      ensures city == c
      ensures weather == old(weather) && left == old(left) && right == old(right)
      ensures toggle == old(toggle) && favorites == old(favorites) && persisted == old(persisted)
    {
      city := c;
    }

    /**
     * Search: nothing happens for an empty input; otherwise the record for
     * the input becomes the single result, both slots are cleared and the
     * next compare goes to the left slot.
     */
    method Search(outcome: Outcome)
      requires ModesExclusive() && Synced()
      modifies this
      ensures ModesExclusive() && Synced()
      ensures old(city) == "" ==> unchanged(this)
      ensures old(city) != "" ==>
        weather == Some(Normalise(city, outcome)) && left.None? && right.None? && toggle
      ensures city == old(city) && favorites == old(favorites) && persisted == old(persisted)
    {
      if city == "" {
        return;
      }
      var data := Normalise(city, outcome);
      weather := Some(data);
      left := None;
      right := None;
      toggle := true;
    }

    /**
     * Compare: nothing happens for an empty input; otherwise the single result
     * is cleared, the record goes into the slot the toggle points at, the other
     * slot is kept, and the toggle flips.
     */
    method Compare(outcome: Outcome)
      requires ModesExclusive() && Synced()
      modifies this
      ensures ModesExclusive() && Synced()
      ensures old(city) == "" ==> unchanged(this)
      ensures old(city) != "" ==> weather.None? && toggle == !old(toggle)
      ensures old(city) != "" && old(toggle) ==>
        left == Some(Normalise(city, outcome)) && right == old(right)
      ensures old(city) != "" && !old(toggle) ==>
        right == Some(Normalise(city, outcome)) && left == old(left)
      ensures city == old(city) && favorites == old(favorites) && persisted == old(persisted)
    {
      if city == "" {
        return;
      }
      var data := Normalise(city, outcome);
      weather := None;
      if toggle {
        left := Some(data);
      } else {
        right := Some(data);
      }
      toggle := !toggle;
    }

    /**
     * Save: nothing happens for an empty input or a name already saved;
     * otherwise the input is appended and the new list is written to storage.
     */
    method SaveFavorite()
      requires Synced()
      modifies this
      ensures Synced()
      ensures favorites == Added(old(favorites), old(city))
      ensures old(city) == "" || old(city) in old(favorites) ==> unchanged(this)
      ensures old(city) != "" && old(city) !in old(favorites) ==>
        favorites == old(favorites) + [old(city)] && persisted == Some(favorites)
      ensures NoDuplicates(old(favorites)) ==> NoDuplicates(favorites)
      ensures city == old(city) && weather == old(weather) && left == old(left)
      ensures right == old(right) && toggle == old(toggle)
    {
      if city == "" || city in favorites {
        return;
      }
      if NoDuplicates(favorites) {
        AddedNoDuplicates(favorites, city);
      }
      var updated := favorites + [city];
      favorites := updated;
      persisted := Some(updated);
    }

    /** Remove: every entry equal to `name` is filtered out and the new list is written to storage. */
    method RemoveFavorite(name: string)
      requires Synced()
      modifies this
      ensures Synced()
      ensures favorites == Without(old(favorites), name)
      ensures name !in favorites
      ensures forall x :: x in favorites <==> x in old(favorites) && x != name
      ensures multiset(favorites) == multiset(old(favorites))[name := 0]
      ensures name !in old(favorites) ==> favorites == old(favorites)
      ensures NoDuplicates(old(favorites)) ==> NoDuplicates(favorites)
      ensures persisted == Some(favorites)
      ensures city == old(city) && weather == old(weather) && left == old(left)
      ensures right == old(right) && toggle == old(toggle)
    {
      var updated := Without(favorites, name);
      forall x {
        WithoutMembership(favorites, name, x);
      }
      WithoutMultiset(favorites, name);
      if name !in favorites {
        WithoutAbsent(favorites, name);
      }
      if NoDuplicates(favorites) {
        WithoutNoDuplicates(favorites, name);
      }
      favorites := updated;
      persisted := Some(updated);
    }
  }

  /**
   * With the toggle at the left slot, three compares (the input edited before
   * each) fill the left slot, then the right slot, then overwrite the left slot.
   */
  method CompareThrice(s: Controller, c1: string, o1: Outcome, c2: string, o2: Outcome, c3: string, o3: Outcome)
    requires s.ModesExclusive() && s.Synced() && s.toggle
    requires c1 != "" && c2 != "" && c3 != ""
    modifies s
    ensures s.left == Some(Normalise(c3, o3)) && s.right == Some(Normalise(c2, o2))
    ensures s.weather.None? && !s.toggle && s.city == c3
    ensures s.favorites == old(s.favorites) && s.persisted == old(s.persisted)
  {
    s.SetCity(c1);
    s.Compare(o1);
    assert s.left == Some(Normalise(c1, o1)) && !s.toggle;
    s.SetCity(c2);
    s.Compare(o2);
    assert s.left == Some(Normalise(c1, o1)) && s.right == Some(Normalise(c2, o2)) && s.toggle;
    s.SetCity(c3);
    s.Compare(o3);
  }

  /** Saving "Paris" twice keeps one copy; removing it from ["Paris", "Rome"] leaves ["Rome"], also in storage. */
  method FavoritesScenario()
  {
    var s := new Controller(Some(["Rome"]));
    s.SetCity("Paris");
    s.SaveFavorite();
    s.SaveFavorite();
    assert s.favorites == ["Rome", "Paris"];
    s.RemoveFavorite("Paris");
    assert s.favorites == ["Rome"] && s.persisted == Some(["Rome"]);

    var t := new Controller(Some(["Paris", "Rome"]));
    t.RemoveFavorite("Paris");
    assert t.favorites == ["Rome"] && t.persisted == Some(["Rome"]);
  }
}
