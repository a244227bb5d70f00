/**
 * A JavaScript object used as a header record (`Record<string, string>`), kept as the
 * sequence of its properties in insertion order, so that `Object.keys` is exact:
 * assigning an existing property keeps its place, assigning a new one appends it, and
 * `delete` removes it.
 */
module Headers {
  import opened Wrappers

  type HeaderMap = seq<(string, string)>

  /** `Object.keys(h)`. */
  function Names(h: HeaderMap): (r: seq<string>)
    ensures |r| == |h|
  {
    if h == [] then [] else [h[0].0] + Names(h[1..])
  }

  /** `h[name]`, with `None` for `undefined`: the value of the first property called `name`. */
  function Get(h: HeaderMap, name: string): Option<string> {
    if h == [] then None
    else if h[0].0 == name then Some(h[0].1)
    else Get(h[1..], name)
  }

  /** `Object.hasOwnProperty.call(h, name)`. */
  predicate Has(h: HeaderMap, name: string) {
    Get(h, name).Some?
  }

  /** A property is present exactly when its name is among `Object.keys(h)`. */
  lemma {:induction false} HasIffNamed(h: HeaderMap, name: string)
    ensures Has(h, name) <==> name in Names(h)
  {
    if h != [] {
      HasIffNamed(h[1..], name);
      assert Names(h) == [h[0].0] + Names(h[1..]);
    }
  }

  /** `if (h[name])`: present and not the empty string. */
  predicate Truthy(h: HeaderMap, name: string) {
    Get(h, name).Some? && Get(h, name).value != ""
  }

  /** No property appears twice, as in every JavaScript object. */
  predicate WellFormed(h: HeaderMap) {
    h == [] || (!Has(h[1..], h[0].0) && WellFormed(h[1..]))
  }

  /** `h[name] = value`. */
  function Set(h: HeaderMap, name: string, value: string): (r: HeaderMap)
    ensures Get(r, name) == Some(value)
    ensures forall other :: other != name ==> Get(r, other) == Get(h, other)
    ensures Names(r) == if Has(h, name) then Names(h) else Names(h) + [name]
  {
    if h == [] then [(name, value)]
    else if h[0].0 == name then
      var r := [(name, value)] + h[1..];
      assert r[0].0 == name && r[1..] == h[1..];
      r
    else
      var rest := Set(h[1..], name, value);
      var r := [h[0]] + rest;
      assert r[0] == h[0] && r[1..] == rest;
      assert Names(r) == [h[0].0] + Names(rest);
      r
  }

  /** Assigning a property never duplicates it. */
  lemma {:induction false} SetKeepsWellFormed(h: HeaderMap, name: string, value: string)
    requires WellFormed(h)
    ensures WellFormed(Set(h, name, value))
  {
    if h != [] && h[0].0 != name {
      SetKeepsWellFormed(h[1..], name, value);
      var rest := Set(h[1..], name, value);
      assert Set(h, name, value) == [h[0]] + rest;
      assert ([h[0]] + rest)[1..] == rest;
    } else if h != [] {
      assert Set(h, name, value)[1..] == h[1..];
    }
  }

  /** `Object.keys(h)` with `name` taken out. */
  function Without(names: seq<string>, name: string): (r: seq<string>)
    ensures forall n :: n in r <==> n in names && n != name
  {
    if names == [] then []
    else if names[0] == name then Without(names[1..], name)
    else [names[0]] + Without(names[1..], name)
  }

  /** `delete h[name]`. */
  function Delete(h: HeaderMap, name: string): (r: HeaderMap)
    ensures Get(r, name) == None
    ensures forall other :: other != name ==> Get(r, other) == Get(h, other)
    ensures Names(r) == Without(Names(h), name)
    ensures WellFormed(h) ==> WellFormed(r)
  {
    if h == [] then []
    else if h[0].0 == name then Delete(h[1..], name)
    else
      var r := [h[0]] + Delete(h[1..], name);
      assert Names(r) == [h[0].0] + Names(Delete(h[1..], name));
      r
  }

  /** `names.forEach(n => { delete h[n]; })`. */
  function DeleteAll(h: HeaderMap, names: seq<string>): HeaderMap
    decreases |names|
  {
    if names == [] then h else DeleteAll(Delete(h, names[0]), names[1..])
  }

  /** `Object.keys(values).forEach(n => { h[n] = values[n]; })`. */
  function SetAll(h: HeaderMap, values: HeaderMap): HeaderMap
    decreases |values|
  {
    if values == [] then h else SetAll(Set(h, values[0].0, values[0].1), values[1..])
  }

  /** After the removal loop, exactly the listed headers are gone and the rest are untouched. */
  lemma {:induction false} DeleteAllGet(h: HeaderMap, names: seq<string>, name: string)
    ensures Get(DeleteAll(h, names), name) == if name in names then None else Get(h, name)
    decreases |names|
  {
    if names != [] {
      DeleteAllGet(Delete(h, names[0]), names[1..], name);
      assert name in names <==> name == names[0] || name in names[1..];
    }
  }

  /** After the injection loop, every injected header has its configured value and the rest are untouched. */
  lemma {:induction false} SetAllGet(h: HeaderMap, values: HeaderMap, name: string)
    requires WellFormed(values)
    ensures Get(SetAll(h, values), name) == if Has(values, name) then Get(values, name) else Get(h, name)
    decreases |values|
  {
    if values != [] {
      SetAllGet(Set(h, values[0].0, values[0].1), values[1..], name);
      assert Names(values) == [values[0].0] + Names(values[1..]);
    }
  }

  /** Both loops keep the record free of duplicate properties. */
  lemma {:induction false} LoopsKeepWellFormed(h: HeaderMap, names: seq<string>, values: HeaderMap)
    requires WellFormed(h)
    ensures WellFormed(DeleteAll(h, names)) && WellFormed(SetAll(h, values))
    decreases |names| + |values|
  {
    if names != [] {
      LoopsKeepWellFormed(Delete(h, names[0]), names[1..], []);
    }
    if values != [] {
      SetKeepsWellFormed(h, values[0].0, values[0].1);
      LoopsKeepWellFormed(Set(h, values[0].0, values[0].1), [], values[1..]);
    }
  }
}
