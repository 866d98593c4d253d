/**
 * The part of URLSearchParams the client uses: an ordered list of
 * name/value pairs with `get`, `set`, `delete` and `append`, following the
 * WHATWG URL Standard's URLSearchParams class. Percent-encoding is not
 * modelled; `Serialize` joins the raw text.
 */
module SearchParams {
  import opened Wrappers

  datatype Param = Param(name: string, value: string)

  type Params = seq<Param>

  /** The values stored under `n`, in list order. */
  function Named(p: Params, n: string): (vs: seq<string>)
    ensures |vs| <= |p|
  {
    if |p| == 0 then []
    else (if p[0].name == n then [p[0].value] else []) + Named(p[1..], n)
  }

  predicate Has(p: Params, n: string) {
    exists i :: 0 <= i < |p| && p[i].name == n
  }

  lemma NamedEmptyIffAbsent(p: Params, n: string)
    ensures Named(p, n) == [] <==> !Has(p, n)
  {
    if |p| > 0 {
      NamedEmptyIffAbsent(p[1..], n);
      if !Has(p[1..], n) && p[0].name != n {
        forall i | 0 <= i < |p| ensures p[i].name != n {
          if i > 0 { assert p[i] == p[1..][i - 1]; }
        }
      }
    }
  }

  /** `get`: the value of the first pair named `n`, if any. */
  function Get(p: Params, n: string): (r: Option<string>)
    ensures r.None? <==> Named(p, n) == []
    ensures r.Some? ==> r.value == Named(p, n)[0]
  {
    if |p| == 0 then None
    else if p[0].name == n then Some(p[0].value)
    else Get(p[1..], n)
  }

  /** `get` sees nothing but the values under its name. */
  lemma GetDeterminedByNamed(p: Params, q: Params, n: string)
    requires Named(p, n) == Named(q, n)
    ensures Get(p, n) == Get(q, n)
  {
  }

  /** `delete`: drop every pair named `n`. */
  function Delete(p: Params, n: string): (r: Params)
    ensures Named(r, n) == []
    ensures forall m :: m != n ==> Named(r, m) == Named(p, m)
    ensures |r| <= |p|
  {
    if |p| == 0 then []
    else
      var rest := Delete(p[1..], n);
      if p[0].name == n then rest
      else
        assert ([p[0]] + rest)[1..] == rest;
        [p[0]] + rest
  }

  /**
   * `set`: overwrite the first pair named `n` in place and drop the other
   * pairs with that name, or append a new pair when there is none.
   */
  function Set(p: Params, n: string, v: string): (r: Params)
    ensures Named(r, n) == [v]
    ensures forall m :: m != n ==> Named(r, m) == Named(p, m)
  {
    if |p| == 0 then [Param(n, v)]
    else if p[0].name == n then
      var rest := Delete(p[1..], n);
      assert ([Param(n, v)] + rest)[1..] == rest;
      [Param(n, v)] + rest
    else
      var rest := Set(p[1..], n, v);
      assert ([p[0]] + rest)[1..] == rest;
      [p[0]] + rest
  }

  /** `append`: add a pair at the end, keeping any earlier pairs with that name. */
  function Append(p: Params, n: string, v: string): (r: Params)
    ensures Named(r, n) == Named(p, n) + [v]
    ensures forall m :: m != n ==> Named(r, m) == Named(p, m)
  {
    NamedConcat(p, [Param(n, v)], n);
    forall m | m != n ensures Named(p + [Param(n, v)], m) == Named(p, m) {
      NamedConcat(p, [Param(n, v)], m);
    }
    p + [Param(n, v)]
  }

  lemma {:induction false} NamedConcat(p: Params, q: Params, n: string)
    ensures Named(p + q, n) == Named(p, n) + Named(q, n)
  {
    if |p| > 0 {
      assert (p + q)[1..] == p[1..] + q;
      NamedConcat(p[1..], q, n);
    } else {
      assert p + q == q;
    }
  }

  /** Deleting a name that no pair carries leaves the list as it is. */
  lemma {:induction false} DeleteAbsent(p: Params, n: string)
    requires Named(p, n) == []
    ensures Delete(p, n) == p
  {
    if |p| > 0 {
      DeleteAbsent(p[1..], n);
      assert [p[0]] + p[1..] == p;
    }
  }

  /** Setting a name that already holds exactly that one value changes nothing. */
  lemma {:induction false} SetPresent(p: Params, n: string, v: string)
    requires Named(p, n) == [v]
    ensures Set(p, n, v) == p
  {
    if |p| > 0 {
      if p[0].name == n {
        assert Named(p, n) == [p[0].value] + Named(p[1..], n);
        assert p[0].value == Named(p, n)[0] == v;
        assert p[0] == Param(n, v);
        assert Named(p[1..], n) == [];
        DeleteAbsent(p[1..], n);
        assert [p[0]] + p[1..] == p;
      } else {
        SetPresent(p[1..], n, v);
        assert [p[0]] + p[1..] == p;
      }
    }
  }

  lemma DeleteIdempotent(p: Params, n: string)
    ensures Delete(Delete(p, n), n) == Delete(p, n)
  {
    DeleteAbsent(Delete(p, n), n);
  }

  lemma SetIdempotent(p: Params, n: string, v: string)
    ensures Set(Set(p, n, v), n, v) == Set(p, n, v)
  {
    SetPresent(Set(p, n, v), n, v);
  }

  /** `toString` without percent-encoding: `name=value` pairs joined by `&`. */
  function Serialize(p: Params): (s: string)
    ensures p == [] <==> s == ""
  {
    if |p| == 0 then ""
    else if |p| == 1 then p[0].name + "=" + p[0].value
    else p[0].name + "=" + p[0].value + "&" + Serialize(p[1..])
  }

  /** The text of two non-empty lists side by side is their texts joined by one `&`. */
  lemma {:induction false} SerializeConcat(p: Params, q: Params)
    requires p != [] && q != []
    ensures Serialize(p + q) == Serialize(p) + "&" + Serialize(q)
    decreases |p|
  {
    var pair := p[0].name + "=" + p[0].value;
    if |p| == 1 {
      assert (p + q)[1..] == q;
    } else {
      assert (p + q)[1..] == p[1..] + q;
      SerializeConcat(p[1..], q);
      assert Serialize(p + q) == pair + "&" + (Serialize(p[1..]) + "&" + Serialize(q));
    }
  }
}
