/**
 * The search page's filter panel. Each control copies the current query parameters into a
 * `URLSearchParams`, sets or deletes entries in place, and pushes the result as the new URL.
 */
module SearchFilters {
  import opened Common
  import opened Seqs

  /** The entries of a query string, in order; a name may occur more than once. */
  type Entries = seq<(string, string)>

  /** `get(name)`: the value of the first entry with that name. */
  function Lookup(e: Entries, name: string): (r: Option<string>)
    ensures r.None? <==> forall i :: 0 <= i < |e| ==> e[i].0 != name
    ensures r.Some? ==> exists i :: 0 <= i < |e| && e[i] == (name, r.value) && forall j :: 0 <= j < i ==> e[j].0 != name
    decreases |e|
  {
    if e == [] then None
    else if e[0].0 == name then
      assert e[0] == (name, e[0].1);
      Some(e[0].1)
    else
      var r := Lookup(e[1..], name);
      if r.Some? then
        var i :| 0 <= i < |e[1..]| && e[1..][i] == (name, r.value) && forall j :: 0 <= j < i ==> e[1..][j].0 != name;
        assert e[i + 1] == (name, r.value);
        assert forall j :: 0 <= j < i + 1 ==> e[j].0 != name by {
          forall j | 0 <= j < i + 1 ensures e[j].0 != name {
            if j > 0 { assert e[j] == e[1..][j - 1]; }
          }
        }
        r
      else r
  }

  /** `delete(name)`: every entry with that name goes; the others stay in order. */
  function DeleteEntry(e: Entries, name: string): (r: Entries)
    ensures forall p :: p in r <==> p in e && p.0 != name
    ensures forall p :: multiset(r)[p] == if p.0 == name then 0 else multiset(e)[p]
    ensures IsSubsequence(r, e)
    ensures |r| <= |e|
    decreases |e|
  {
    if e == [] then []
    else
      var rest := DeleteEntry(e[1..], name);
      assert e == [e[0]] + e[1..];
      if e[0].0 == name then rest
      else
        assert ([e[0]] + rest)[1..] == rest;
        [e[0]] + rest
  }

  /**
   * `set(name, value)`: the first entry with that name takes the value and the later ones go; with
   * no such entry, one is appended.
   */
  function SetEntry(e: Entries, name: string, value: string): (r: Entries)
    ensures (name, value) in r
    ensures forall p :: p in r && p.0 == name ==> p.1 == value
    decreases |e|
  {
    if e == [] then [(name, value)]
    else if e[0].0 == name then [(name, value)] + DeleteEntry(e[1..], name)
    else [e[0]] + SetEntry(e[1..], name, value)
  }

  /**
   * After `set` the name has exactly one entry, holding the value, and every other entry occurs as
   * often as before.
   */
  lemma {:induction false} SetEntryCounts(e: Entries, name: string, value: string, p: (string, string))
    ensures multiset(SetEntry(e, name, value))[p] ==
      if p == (name, value) then 1 else if p.0 == name then 0 else multiset(e)[p]
    decreases |e|
  {
    if e != [] {
      assert e == [e[0]] + e[1..];
      if e[0].0 != name {
        SetEntryCounts(e[1..], name, value, p);
      }
    }
  }

  /** With no entry of the name, `set` appends one at the end. */
  lemma {:induction false} SetAppendsWhenAbsent(e: Entries, name: string, value: string)
    requires forall i :: 0 <= i < |e| ==> e[i].0 != name
    ensures SetEntry(e, name, value) == e + [(name, value)]
    decreases |e|
  {
    if e != [] {
      assert forall i :: 0 <= i < |e[1..]| ==> e[1..][i].0 != name by {
        forall i | 0 <= i < |e[1..]| ensures e[1..][i] == e[i + 1] {}
      }
      SetAppendsWhenAbsent(e[1..], name, value);
      assert e == [e[0]] + e[1..];
    }
  }

  /**
   * When the name is present, `set` writes the value into its first entry: the entries before it stay
   * as they were and the value sits at that index.
   */
  lemma {:induction false} SetAtFirst(e: Entries, name: string, value: string, i: nat)
    requires i < |e| && e[i].0 == name
    requires forall j :: 0 <= j < i ==> e[j].0 != name
    ensures i < |SetEntry(e, name, value)|
    ensures SetEntry(e, name, value)[..i] == e[..i]
    ensures SetEntry(e, name, value)[i] == (name, value)
    decreases i
  {
    if i > 0 {
      var t := e[1..];
      assert e[0].0 != name;
      assert forall j :: 0 <= j < i - 1 ==> t[j].0 != name by {
        forall j | 0 <= j < i - 1 ensures t[j] == e[j + 1] {}
      }
      SetAtFirst(t, name, value, i - 1);
      var r := SetEntry(t, name, value);
      assert SetEntry(e, name, value) == [e[0]] + r;
      assert ([e[0]] + r)[..i] == [e[0]] + r[..i - 1];
      assert e[..i] == [e[0]] + t[..i - 1];
    }
  }

  /** After `set`, the name looks up to the value set, and every other name to what it did before. */
  lemma {:induction false} LookupAfterSet(e: Entries, name: string, value: string, other: string)
    ensures Lookup(SetEntry(e, name, value), name) == Some(value)
    ensures other != name ==> Lookup(SetEntry(e, name, value), other) == Lookup(e, other)
    decreases |e|
  {
    if e != [] && e[0].0 != name {
      LookupAfterSet(e[1..], name, value, other);
    } else if e != [] && other != name {
      LookupAfterDelete(e[1..], name, other);
    }
  }

  /** After `delete`, the name is absent, and every other name looks up to what it did before. */
  lemma {:induction false} LookupAfterDelete(e: Entries, name: string, other: string)
    ensures Lookup(DeleteEntry(e, name), name).None?
    ensures other != name ==> Lookup(DeleteEntry(e, name), other) == Lookup(e, other)
    decreases |e|
  {
    if e != [] {
      LookupAfterDelete(e[1..], name, other);
    }
  }

  /**
   * `set` leaves the entries of every other name exactly as they were, with their order and their
   * repetitions: deleting the name afterwards gives what deleting it before gives.
   */
  lemma {:induction false} SetKeepsOtherEntries(e: Entries, name: string, value: string)
    ensures DeleteEntry(SetEntry(e, name, value), name) == DeleteEntry(e, name)
    decreases |e|
  {
    if e != [] {
      if e[0].0 == name {
        DeleteTwice(e[1..], name);
      } else {
        SetKeepsOtherEntries(e[1..], name, value);
      }
    }
  }

  lemma {:induction false} DeleteTwice(e: Entries, name: string)
    ensures DeleteEntry(DeleteEntry(e, name), name) == DeleteEntry(e, name)
    decreases |e|
  {
    if e != [] {
      DeleteTwice(e[1..], name);
    }
  }

  /** Setting the same value twice is setting it once. */
  lemma {:induction false} SetIdempotent(e: Entries, name: string, value: string)
    ensures SetEntry(SetEntry(e, name, value), name, value) == SetEntry(e, name, value)
    decreases |e|
  {
    if e != [] {
      if e[0].0 == name {
        DeleteTwice(e[1..], name);
      } else {
        SetIdempotent(e[1..], name, value);
      }
    }
  }

  /** A `URLSearchParams` object: its entry list, changed in place. */
  class SearchParams {
    var entries: Entries

    constructor (init: Entries)
      ensures entries == init
    {
      entries := init;
    }

    method Set(name: string, value: string)
      modifies this`entries
      ensures entries == SetEntry(old(entries), name, value)
    {
      entries := SetEntry(entries, name, value);
    }

    method Delete(name: string)
      modifies this`entries
      ensures entries == DeleteEntry(old(entries), name)
    {
      entries := DeleteEntry(entries, name);
    }
  }

  /** `if (value) params.set(key, value) else params.delete(key)`. */
  function Updated(e: Entries, key: string, value: Option<string>): (r: Entries)
    ensures value.Some? && value.value != "" ==> Lookup(r, key) == value
    ensures value.None? || value.value == "" ==> Lookup(r, key).None?
    ensures forall other :: other != key ==> Lookup(r, other) == Lookup(e, other)
  {
    if value.Some? && value.value != "" then
      var r := SetEntry(e, key, value.value);
      forall other | other != key ensures Lookup(r, other) == Lookup(e, other) {
        LookupAfterSet(e, key, value.value, other);
      }
      LookupAfterSet(e, key, value.value, key);
      r
    else
      var r := DeleteEntry(e, key);
      forall other | other != key ensures Lookup(r, other) == Lookup(e, other) {
        LookupAfterDelete(e, key, other);
      }
      LookupAfterDelete(e, key, key);
      r
  }

  /** The filter panel: its two price inputs, the page's parameters, and the URLs it pushed. */
  class SearchFiltersPanel {
    /** `searchParams`: the parameters the page was rendered with. */
    const props: map<string, string>
    /** `useSearchParams()`: the parameters of the current URL. */
    const current: Entries
    var minPrice: string
    var maxPrice: string
    /** The parameters of every `router.push`, oldest first. */
    var pushed: seq<Entries>

    /** The inputs start from `searchParams.min_price || ""` and `searchParams.max_price || ""`. */
    constructor (props: map<string, string>, current: Entries)
      ensures this.props == props && this.current == current && pushed == []
      ensures minPrice == if "min_price" in props then props["min_price"] else ""
      ensures maxPrice == if "max_price" in props then props["max_price"] else ""
    {
      this.props := props;
      this.current := current;
      minPrice := if "min_price" in props then props["min_price"] else "";
      maxPrice := if "max_price" in props then props["max_price"] else "";
      pushed := [];
    }

    /** An input's `onChange`. */
    method TypeMinPrice(v: string)
      modifies this`minPrice
      ensures minPrice == v
    {
      minPrice := v;
    }

    method TypeMaxPrice(v: string)
      modifies this`maxPrice
      ensures maxPrice == v
    {
      maxPrice := v;
    }

    /** `updateFilters(key, value)`: set a non-empty value, delete the key otherwise. */
    method UpdateFilters(key: string, value: Option<string>)
      modifies this`pushed
      ensures pushed == old(pushed) + [Updated(current, key, value)]
    {
      var params := new SearchParams(current);
      if value.Some? && value.value != "" {
        params.Set(key, value.value);
      } else {
        params.Delete(key);
      }
      pushed := pushed + [params.entries];
    }

    /** `applyPriceFilter`: the same rule for `min_price`, then for `max_price`, from the inputs. */
    method ApplyPriceFilter()
      modifies this`pushed
      ensures pushed == old(pushed) + [Updated(Updated(current, "min_price", Some(minPrice)), "max_price", Some(maxPrice))]
    {
      var params := new SearchParams(current);
      if minPrice != "" {
        params.Set("min_price", minPrice);
      } else {
        params.Delete("min_price");
      }
      if maxPrice != "" {
        params.Set("max_price", maxPrice);
      } else {
        params.Delete("max_price");
      }
      pushed := pushed + [params.entries];
    }

    /** `clearFilters`: fresh parameters holding at most the page's `q`, and both price inputs emptied. */
    method ClearFilters()
      modifies this`pushed, this`minPrice, this`maxPrice
      ensures pushed == old(pushed) + [Cleared(props)]
      ensures minPrice == "" && maxPrice == ""
    {
      var params := new SearchParams([]);
      if "q" in props && props["q"] != "" {
        params.Set("q", props["q"]);
      }
      pushed := pushed + [params.entries];
      minPrice, maxPrice := "", "";
    }
  }

  /** The parameters `clearFilters` pushes. */
  function Cleared(props: map<string, string>): (r: Entries)
    ensures forall p :: p in r ==> p.0 == "q"
    ensures "q" in props && props["q"] != "" ==> Lookup(r, "q") == Some(props["q"])
    ensures !("q" in props && props["q"] != "") ==> r == []
  {
    if "q" in props && props["q"] != "" then SetEntry([], "q", props["q"]) else []
  }

  /**
   * Applying the price filter touches only `min_price` and `max_price`: each holds its input when
   * that is non-empty and is absent otherwise, and every other name keeps its value.
   */
  lemma PriceFilterTouchesOnlyPrices(current: Entries, minPrice: string, maxPrice: string, other: string)
    ensures var r := Updated(Updated(current, "min_price", Some(minPrice)), "max_price", Some(maxPrice));
      && Lookup(r, "min_price") == (if minPrice != "" then Some(minPrice) else None)
      && Lookup(r, "max_price") == (if maxPrice != "" then Some(maxPrice) else None)
      && (other != "min_price" && other != "max_price" ==> Lookup(r, other) == Lookup(current, other))
  {
  }
}
