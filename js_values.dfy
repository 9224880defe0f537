/** JavaScript value semantics the button components lean on: optional props,
    the truthiness of strings, `a || b` on strings, default parameters, and the
    `filter(Boolean).join(" ")` idiom used to build class strings. */
module JsValues {

  /** An optional prop: `None` is `undefined`. */
  datatype Option<+T> = None | Some(value: T)

  /** A string prop is truthy when it is present and not empty. */
  predicate Truthy(s: Option<string>)
  {
    s.Some? && s.value != ""
  }

  /** `s || fallback`: the empty string is falsy, so it falls through too. */
  function OrElse(s: Option<string>, fallback: string): (r: string)
    ensures Truthy(s) ==> r == s.value
    ensures !Truthy(s) ==> r == fallback
  {
    if s.Some? && s.value != "" then s.value else fallback
  }

  /** A destructuring default `{ x = d }`: only `undefined` is replaced. */
  function WithDefault<T>(s: Option<T>, d: T): (r: T)
    ensures s.Some? ==> r == s.value
    ensures s.None? ==> r == d
  {
    match s
    case Some(v) => v
    case None => d
  }

  /** `xs.filter(Boolean)` over an array of strings and `false`s (`None`). */
  function FilterTruthy(xs: seq<Option<string>>): (r: seq<string>)
    ensures |r| <= |xs|
    ensures forall i :: 0 <= i < |r| ==> r[i] != ""
  {
    if xs == [] then []
    else
      var rest := FilterTruthy(xs[1..]);
      if Truthy(xs[0]) then [xs[0].value] + rest else rest
  }

  /** A string survives the filter exactly when it is non-empty and present. */
  lemma {:induction false} FilterTruthyKeeps(xs: seq<Option<string>>, x: string)
    ensures x in FilterTruthy(xs) <==> x != "" && Some(x) in xs
  {
    if xs != [] {
      FilterTruthyKeeps(xs[1..], x);
      assert xs == [xs[0]] + xs[1..];
    }
  }

  /** `ts.join(sep)`. */
  function Join(ts: seq<string>, sep: string): string
  {
    if |ts| == 0 then ""
    else if |ts| == 1 then ts[0]
    else ts[0] + sep + Join(ts[1..], sep)
  }

  /** Joining more than one token puts a separator before the last one. */
  lemma {:induction false} JoinSnoc(ts: seq<string>, sep: string)
    requires |ts| > 1
    ensures Join(ts, sep) == Join(ts[..|ts| - 1], sep) + sep + ts[|ts| - 1]
  {
    var rest := ts[1..];
    if |rest| > 1 {
      JoinSnoc(rest, sep);
      assert ts[..|ts| - 1][1..] == rest[..|rest| - 1];
      assert rest[|rest| - 1] == ts[|ts| - 1];
    }
  }

  /** Appending a token to a non-empty list appends the separator and it. */
  lemma JoinAppend(ts: seq<string>, x: string, sep: string)
    requires |ts| > 0
    ensures Join(ts + [x], sep) == Join(ts, sep) + sep + x
  {
    JoinSnoc(ts + [x], sep);
    assert (ts + [x])[..|ts|] == ts;
  }

  /** What `filter(Boolean)` keeps of one entry. */
  function Kept(x: Option<string>): seq<string>
  {
    if Truthy(x) then [x.value] else []
  }

  /** `filter` keeps a truthy head and drops a falsy one. */
  lemma FilterTruthyCons(x: Option<string>, xs: seq<Option<string>>)
    ensures FilterTruthy([x] + xs) == Kept(x) + FilterTruthy(xs)
  {
    assert ([x] + xs)[1..] == xs;
  }

  /** Filtering a four-entry array keeps each entry on its own merits, in order. */
  lemma FilterTruthyFour(w: Option<string>, x: Option<string>, y: Option<string>, z: Option<string>)
    ensures FilterTruthy([w, x, y, z]) == Kept(w) + (Kept(x) + (Kept(y) + Kept(z)))
  {
    assert FilterTruthy([z]) == Kept(z) by {
      FilterTruthyCons(z, []);
      assert [z] + [] == [z];
    }
    assert FilterTruthy([y, z]) == Kept(y) + Kept(z) by {
      FilterTruthyCons(y, [z]);
      assert [y] + [z] == [y, z];
    }
    assert FilterTruthy([x, y, z]) == Kept(x) + (Kept(y) + Kept(z)) by {
      FilterTruthyCons(x, [y, z]);
      assert [x] + [y, z] == [x, y, z];
    }
    FilterTruthyCons(w, [x, y, z]);
    assert [w] + [x, y, z] == [w, x, y, z];
  }
}
