/**
 * The query-string parameters the list filters read and rewrite, as the
 * `URLSearchParams` object of the WHATWG URL standard: an ordered list of
 * name/value pairs where `get` gives the first value of a name, `delete`
 * removes every pair of a name and `set` replaces the first pair of a name
 * (dropping the others) or appends one. On top of them, the two rules both
 * filter bars apply: the delete-if-active-else-set toggle and the trimmed
 * search update.
 */
module SearchParams {
  import opened Wrappers
  import opened Strings

  type Params = seq<(string, string)>

  // ---------------------------------------------------------------------------
  // URLSearchParams
  // ---------------------------------------------------------------------------

  /** `params.get(name)`: the value of the first pair with that name. */
  function Get(p: Params, name: string): (r: Option<string>)
    ensures r.Some? ==> (name, r.value) in p
    ensures r.None? <==> forall q <- p :: q.0 != name
  {
    if p == [] then None
    else if p[0].0 == name then Some(p[0].1)
    else Get(p[1..], name)
  }

  /** `params.delete(name)`: every pair with that name removed, the rest kept in order. */
  function Delete(p: Params, name: string): (r: Params)
    ensures forall q <- r :: q.0 != name
    ensures forall q <- p :: q.0 != name ==> q in r
    ensures forall q <- r :: q in p
    ensures |r| <= |p|
  {
    if p == [] then []
    else if p[0].0 == name then Delete(p[1..], name)
    else [p[0]] + Delete(p[1..], name)
  }

  /**
   * `params.set(name, value)`: the first pair with that name takes the value
   * and the later ones go; with no such pair, one is appended.
   */
  function Set(p: Params, name: string, value: string): (r: Params)
    ensures (name, value) in r
    ensures |r| <= |p| + 1
  {
    if p == [] then [(name, value)]
    else if p[0].0 == name then [(name, value)] + Delete(p[1..], name)
    else [p[0]] + Set(p[1..], name, value)
  }

  /** After `delete`, the name reads as absent and every other name reads as before. */
  lemma {:induction false} GetAfterDelete(p: Params, name: string, other: string)
    ensures Get(Delete(p, name), other) == if other == name then None else Get(p, other)
  {
    if p != [] {
      GetAfterDelete(p[1..], name, other);
      if p[0].0 != name {
        assert Delete(p, name) == [p[0]] + Delete(p[1..], name);
        assert ([p[0]] + Delete(p[1..], name))[1..] == Delete(p[1..], name);
      }
    }
  }

  /** After `set`, the name reads as the new value and every other name reads as before. */
  lemma {:induction false} GetAfterSet(p: Params, name: string, value: string, other: string)
    ensures Get(Set(p, name, value), other) == if other == name then Some(value) else Get(p, other)
  {
    if p != [] {
      if p[0].0 == name {
        GetAfterDelete(p[1..], name, other);
        assert ([(name, value)] + Delete(p[1..], name))[1..] == Delete(p[1..], name);
      } else {
        GetAfterSet(p[1..], name, value, other);
        assert ([p[0]] + Set(p[1..], name, value))[1..] == Set(p[1..], name, value);
      }
    }
  }

  /** `delete` is idempotent. */
  lemma {:induction false} DeleteTwice(p: Params, name: string)
    ensures Delete(Delete(p, name), name) == Delete(p, name)
  {
    if p != [] {
      DeleteTwice(p[1..], name);
      if p[0].0 != name {
        assert ([p[0]] + Delete(p[1..], name))[1..] == Delete(p[1..], name);
      }
    }
  }

  /** `set` and `delete` touch no pair of another name: those stay, in order. */
  lemma {:induction false} SetKeepsOthers(p: Params, name: string, value: string)
    ensures Delete(Set(p, name, value), name) == Delete(p, name)
  {
    if p != [] {
      if p[0].0 == name {
        assert ([(name, value)] + Delete(p[1..], name))[1..] == Delete(p[1..], name);
        DeleteTwice(p[1..], name);
      } else {
        SetKeepsOthers(p[1..], name, value);
        assert ([p[0]] + Set(p[1..], name, value))[1..] == Set(p[1..], name, value);
      }
    }
  }

  /** Deleting a name that is not there changes nothing. */
  lemma {:induction false} DeleteAbsent(p: Params, name: string)
    requires Get(p, name).None?
    ensures Delete(p, name) == p
  {
    if p != [] {
      DeleteAbsent(p[1..], name);
    }
  }

  /** Setting a name that is not there appends one pair at the end. */
  lemma {:induction false} SetAbsent(p: Params, name: string, value: string)
    requires Get(p, name).None?
    ensures Set(p, name, value) == p + [(name, value)]
  {
    if p != [] {
      SetAbsent(p[1..], name, value);
      assert [p[0]] + (p[1..] + [(name, value)]) == p + [(name, value)];
    }
  }

  // ---------------------------------------------------------------------------
  // The filter rules
  // ---------------------------------------------------------------------------

  /** `if (current === value) params.delete(name) else params.set(name, value)`. */
  function Toggle(p: Params, name: string, value: string): Params {
    if Get(p, name) == Some(value) then Delete(p, name) else Set(p, name, value)
  }

  /**
   * A toggle clears the filter when it is the active value and sets it
   * otherwise, and leaves every other parameter as it was.
   */
  lemma ToggleEffect(p: Params, name: string, value: string, other: string)
    ensures Get(Toggle(p, name, value), name) == if Get(p, name) == Some(value) then None else Some(value)
    ensures other != name ==> Get(Toggle(p, name, value), other) == Get(p, other)
    ensures Delete(Toggle(p, name, value), name) == Delete(p, name)
  {
    if Get(p, name) == Some(value) {
      GetAfterDelete(p, name, name);
      GetAfterDelete(p, name, other);
      DeleteTwice(p, name);
    } else {
      GetAfterSet(p, name, value, name);
      GetAfterSet(p, name, value, other);
      SetKeepsOthers(p, name, value);
    }
  }

  /** Clicking an inactive filter twice gives back the parameters unchanged. */
  lemma ToggleTwice(p: Params, name: string, value: string)
    requires Get(p, name).None?
    ensures Toggle(Toggle(p, name, value), name, value) == p
  {
    SetAbsent(p, name, value);
    GetAfterSet(p, name, value, name);
    assert Toggle(p, name, value) == p + [(name, value)];
    var q := p + [(name, value)];
    assert Get(q, name) == Some(value);
    DeleteAppended(p, name, value);
    DeleteAbsent(p, name);
  }

  /** A pair of the deleted name appended at the end goes with the others. */
  lemma {:induction false} DeleteAppended(p: Params, name: string, value: string)
    ensures Delete(p + [(name, value)], name) == Delete(p, name)
  {
    if p == [] {
      assert [(name, value)][1..] == [];
    } else {
      assert (p + [(name, value)])[1..] == p[1..] + [(name, value)];
      DeleteAppended(p[1..], name, value);
    }
  }

  /**
   * The search submit: the trimmed box text under `search` when it is not
   * blank, else `search` removed.
   */
  function WithSearch(p: Params, box: string): Params {
    var t := Trim(box);
    if t != "" then Set(p, "search", t) else Delete(p, "search")
  }

  /** A search submit reads back as the trimmed text, or as absent for a blank box, and keeps the rest. */
  lemma WithSearchEffect(p: Params, box: string, other: string)
    ensures Get(WithSearch(p, box), "search") == if AllSpace(box) then None else Some(Trim(box))
    ensures other != "search" ==> Get(WithSearch(p, box), other) == Get(p, other)
    ensures Delete(WithSearch(p, box), "search") == Delete(p, "search")
  {
    if Trim(box) != "" {
      GetAfterSet(p, "search", Trim(box), "search");
      GetAfterSet(p, "search", Trim(box), other);
      SetKeepsOthers(p, "search", Trim(box));
    } else {
      GetAfterDelete(p, "search", "search");
      GetAfterDelete(p, "search", other);
      DeleteTwice(p, "search");
    }
  }

  /** JavaScript truthiness of `params.get(name)`: present and not the empty string. */
  predicate IsSet(p: Params, name: string) {
    Get(p, name).Some? && Get(p, name).value != ""
  }
}
