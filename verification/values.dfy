/** The data every handler shares: optional values, the exceptions a handler
    raises, the untyped values the Jira client hands over, and Python's
    insertion-ordered dictionaries. */
module Values {

  datatype Option<T> = None | Some(value: T)

  /** The exceptions the handlers raise or see raised by the Jira client.
      In Python a UnicodeError is a ValueError. */
  datatype Exception =
    | ValueError(message: string)
    | UnicodeError(message: string)
    | OtherError(message: string)
  {
    predicate IsValueError() { ValueError? || UnicodeError? }
  }

  /** The outcome of a handler, or of one call into the Jira client. */
  datatype Result<T> = Ok(value: T) | Err(error: Exception)

  /** A Python value as the Jira client returns it. An object carries the
      attributes it has and the text its str() gives. */
  datatype Value =
    | Null
    | Bool(b: bool)
    | Num(n: int)
    | Text(s: string)
    | List(items: seq<Value>)
    | Mapping(entries: seq<(string, Value)>)
    | Object(attrs: seq<(string, Value)>, text: string)

  /** A string argument that is present and non-empty: Python's truth value
      of `arguments.get(k)` for a string-typed argument. */
  predicate Filled(o: Option<string>) {
    o.Some? && o.value != ""
  }

  /** `d.get(k, default)` once the lookup is an Option. */
  function OrElse<T>(o: Option<T>, default: T): T {
    if o.Some? then o.value else default
  }

  /** `raise Exception(f"{prefix}: {e!s}") from e`. */
  function Wrapped(prefix: string, e: Exception): Exception {
    OtherError(prefix + ": " + e.message)
  }

  /** `except ValueError: raise` followed by the wrapping handler. */
  function Reraised(prefix: string, e: Exception): (r: Exception)
    ensures e.IsValueError() ==> r == e
    ensures !e.IsValueError() ==> r.OtherError? && r.message == prefix + ": " + e.message
  {
    if e.IsValueError() then e else Wrapped(prefix, e)
  }

  /** Python's `s[:n]`: a negative `n` counts from the end. */
  function Take<T>(s: seq<T>, n: int): (r: seq<T>)
    ensures |r| == if n >= 0 then (if n < |s| then n else |s|) else (if |s| + n > 0 then |s| + n else 0)
    ensures r == s[..|r|]
  {
    if n >= 0 then (if n < |s| then s[..n] else s)
    else if |s| + n > 0 then s[..|s| + n]
    else []
  }

  /** The index of the first element satisfying `p`, or `|s|` when none does. */
  function FirstWhere<T>(s: seq<T>, p: T -> bool): (i: nat)
    ensures i <= |s|
    ensures i < |s| ==> p(s[i])
    ensures forall j :: 0 <= j < i ==> !p(s[j])
    decreases |s|
  {
    if s == [] then 0 else if p(s[0]) then 0 else 1 + FirstWhere(s[1..], p)
  }

  /** An index that satisfies `p` after no earlier one does is the first. */
  lemma FirstWhereIs<T>(s: seq<T>, p: T -> bool, i: nat)
    requires i <= |s| && (i < |s| ==> p(s[i]))
    requires forall j :: 0 <= j < i ==> !p(s[j])
    ensures FirstWhere(s, p) == i
  {
  }

  /** `[x for x in s if p(x)]`: the elements satisfying `p`, in order. */
  function Filter<T>(s: seq<T>, p: T -> bool): (r: seq<T>)
    ensures |r| <= |s|
    ensures forall i :: 0 <= i < |r| ==> p(r[i]) && r[i] in s
    ensures forall i :: 0 <= i < |s| && p(s[i]) ==> s[i] in r
    ensures (forall i :: 0 <= i < |s| ==> p(s[i])) ==> r == s
    decreases |s|
  {
    if s == [] then []
    else
      var rest := Filter(s[1..], p);
      assert forall i :: 0 <= i < |s| - 1 ==> s[1..][i] == s[i + 1];
      if p(s[0]) then [s[0]] + rest else rest
  }

  /** Filtering keeps order: the survivors of `a + b` are those of `a`
      followed by those of `b`. */
  lemma {:induction false} FilterAppend<T>(a: seq<T>, b: seq<T>, p: T -> bool)
    ensures Filter(a + b, p) == Filter(a, p) + Filter(b, p)
    decreases |a|
  {
    if a == [] {
      assert a + b == b;
    } else {
      assert (a + b)[0] == a[0];
      assert (a + b)[1..] == a[1..] + b;
      FilterAppend(a[1..], b, p);
    }
  }

  /** Appending one element appends it to the result exactly when it passes. */
  lemma FilterSnoc<T>(s: seq<T>, x: T, p: T -> bool)
    ensures Filter(s + [x], p) == Filter(s, p) + (if p(x) then [x] else [])
  {
    FilterAppend(s, [x], p);
    assert [x][1..] == [];
  }

  /** Two conditions that agree on the elements of `s` keep the same ones. */
  lemma {:induction false} FilterSame<T>(s: seq<T>, p: T -> bool, q: T -> bool)
    requires forall x | x in s :: p(x) == q(x)
    ensures Filter(s, p) == Filter(s, q)
    decreases |s|
  {
    if s != [] {
      assert forall x | x in s[1..] :: x in s;
      FilterSame(s[1..], p, q);
    }
  }

  /** Filtering by `p` and then by `q` is filtering once by both. */
  lemma {:induction false} FilterFilter<T>(s: seq<T>, p: T -> bool, q: T -> bool, pq: T -> bool)
    requires forall x | x in s :: pq(x) == (p(x) && q(x))
    ensures Filter(Filter(s, p), q) == Filter(s, pq)
    decreases |s|
  {
    if s != [] {
      assert forall x | x in s[1..] :: x in s;
      FilterFilter(s[1..], p, q, pq);
      if p(s[0]) {
        var rest := Filter(s[1..], p);
        assert Filter(s, p) == [s[0]] + rest;
        assert ([s[0]] + rest)[1..] == rest;
      }
    }
  }

  /** Python's truth value of a value. */
  predicate Truthy(v: Value) {
    match v
    case Null => false
    case Bool(b) => b
    case Num(n) => n != 0
    case Text(s) => s != ""
    case List(xs) => xs != []
    case Mapping(es) => es != []
    case Object(_, _) => true
  }

  /** A Python dict: key/value pairs in insertion order. */
  type Dict<V> = seq<(string, V)>

  function KeySet<V>(d: Dict<V>): set<string> {
    set i | 0 <= i < |d| :: d[i].0
  }

  predicate DistinctKeys<V>(d: Dict<V>) {
    forall i, j :: 0 <= i < j < |d| ==> d[i].0 != d[j].0
  }

  /** `d.get(k)`. */
  function Get<V(==)>(d: Dict<V>, k: string): (r: Option<V>)
    ensures r.Some? <==> k in KeySet(d)
    ensures r.Some? ==> (k, r.value) in d
  {
    if d == [] then None
    else if d[0].0 == k then Some(d[0].1)
    else Get(d[1..], k)
  }

  /** `d[k] = v`: an existing key keeps its position, a new key goes last. */
  function Put<V>(d: Dict<V>, k: string, v: V): Dict<V> {
    if d == [] then [(k, v)]
    else if d[0].0 == k then [(k, v)] + d[1..]
    else [d[0]] + Put(d[1..], k, v)
  }

  /** `d.update(e)`: the pairs of `e` written one after another. */
  function Update<V>(d: Dict<V>, e: Dict<V>): Dict<V>
    decreases |e|
  {
    if e == [] then d else Update(Put(d, e[0].0, e[0].1), e[1..])
  }

  lemma {:induction false} PutGet<V>(d: Dict<V>, k: string, v: V, k': string)
    ensures Get(Put(d, k, v), k') == if k' == k then Some(v) else Get(d, k')
  {
    if d != [] && d[0].0 != k {
      PutGet(d[1..], k, v, k');
    }
  }

  lemma KeySetCons<V>(p: (string, V), d: Dict<V>)
    ensures KeySet([p] + d) == {p.0} + KeySet(d)
  {
    var e := [p] + d;
    forall x | x in KeySet(e) ensures x in {p.0} + KeySet(d) {
      var i :| 0 <= i < |e| && e[i].0 == x;
      if i > 0 { assert d[i - 1].0 == x; }
    }
    forall x | x in KeySet(d) ensures x in KeySet(e) {
      var i :| 0 <= i < |d| && d[i].0 == x;
      assert e[i + 1].0 == x;
    }
    assert e[0].0 == p.0;
  }

  lemma {:induction false} PutKeys<V>(d: Dict<V>, k: string, v: V)
    ensures KeySet(Put(d, k, v)) == KeySet(d) + {k}
    ensures k in KeySet(d) ==> |Put(d, k, v)| == |d|
    ensures k !in KeySet(d) ==> Put(d, k, v) == d + [(k, v)]
  {
    if d == [] {
      assert KeySet([(k, v)]) == {k} by { KeySetCons((k, v), []); }
    } else {
      assert d == [d[0]] + d[1..];
      KeySetCons(d[0], d[1..]);
      if d[0].0 != k {
        PutKeys(d[1..], k, v);
        KeySetCons(d[0], Put(d[1..], k, v));
      } else {
        KeySetCons((k, v), d[1..]);
      }
    }
  }

  lemma {:induction false} PutDistinct<V>(d: Dict<V>, k: string, v: V)
    requires DistinctKeys(d)
    ensures DistinctKeys(Put(d, k, v))
  {
    if d != [] && d[0].0 != k {
      PutDistinct(d[1..], k, v);
      PutKeys(d[1..], k, v);
      var p := Put(d, k, v);
      forall i, j | 0 <= i < j < |p| ensures p[i].0 != p[j].0 {
        if i == 0 {
          assert d[0].0 !in KeySet(d[1..]) by {
            forall m | 0 <= m < |d[1..]| ensures d[1..][m].0 != d[0].0 {
              assert d[1..][m] == d[m + 1];
            }
          }
          assert p[j] == Put(d[1..], k, v)[j - 1];
          assert p[j].0 in KeySet(d[1..]) + {k};
        }
      }
    }
  }

  /** With distinct keys a pair that occurs in the dict is what `get` finds. */
  lemma {:induction false} GetOfMember<V>(d: Dict<V>, k: string, v: V)
    requires DistinctKeys(d)
    requires (k, v) in d
    ensures Get(d, k) == Some(v)
  {
    if d[0] != (k, v) {
      assert d[0].0 != k by {
        var m :| 0 <= m < |d| && d[m] == (k, v);
        assert m != 0;
      }
      assert (k, v) in d[1..] by {
        var m :| 0 <= m < |d| && d[m] == (k, v);
        assert d[1..][m - 1] == (k, v);
      }
      GetOfMember(d[1..], k, v);
    }
  }

  /** After `d.update(e)`, a key of `e` holds the value `e` gives it and every
      other key holds what it held in `d`. */
  lemma {:induction false} UpdateGet<V>(d: Dict<V>, e: Dict<V>, k: string)
    requires DistinctKeys(e)
    ensures Get(Update(d, e), k) == if k in KeySet(e) then Get(e, k) else Get(d, k)
    decreases |e|
  {
    if e != [] {
      var d' := Put(d, e[0].0, e[0].1);
      assert DistinctKeys(e[1..]);
      UpdateGet(d', e[1..], k);
      PutGet(d, e[0].0, e[0].1, k);
      assert KeySet(e) == {e[0].0} + KeySet(e[1..]) by {
        assert e == [e[0]] + e[1..];
      }
      if k == e[0].0 {
        assert k !in KeySet(e[1..]) by {
          forall m | 0 <= m < |e[1..]| ensures e[1..][m].0 != k {
            assert e[1..][m] == e[m + 1];
          }
        }
      }
    }
  }

  /** Looking up in a concatenation: the first part wins. */
  lemma {:induction false} GetAppend<V>(d: Dict<V>, e: Dict<V>, k: string)
    ensures Get(d + e, k) == if Get(d, k).Some? then Get(d, k) else Get(e, k)
  {
    if d == [] {
      assert d + e == e;
    } else {
      assert (d + e)[0] == d[0];
      assert (d + e)[1..] == d[1..] + e;
      GetAppend(d[1..], e, k);
    }
  }

  lemma KeySetAppend<V>(d: Dict<V>, e: Dict<V>)
    ensures KeySet(d + e) == KeySet(d) + KeySet(e)
  {
    forall x | x in KeySet(d + e) ensures x in KeySet(d) + KeySet(e) {
      var i :| 0 <= i < |d + e| && (d + e)[i].0 == x;
      if i >= |d| { assert e[i - |d|].0 == x; }
    }
    forall x | x in KeySet(e) ensures x in KeySet(d + e) {
      var i :| 0 <= i < |e| && e[i].0 == x;
      assert (d + e)[i + |d|].0 == x;
    }
    forall x | x in KeySet(d) ensures x in KeySet(d + e) {
      var i :| 0 <= i < |d| && d[i].0 == x;
      assert (d + e)[i].0 == x;
    }
  }

  lemma DistinctAppend<V>(d: Dict<V>, e: Dict<V>)
    requires DistinctKeys(d) && DistinctKeys(e) && KeySet(d) !! KeySet(e)
    ensures DistinctKeys(d + e)
  {
    forall i, j | 0 <= i < j < |d + e| ensures (d + e)[i].0 != (d + e)[j].0 {
      if i < |d| && j >= |d| {
        assert (d + e)[j].0 == e[j - |d|].0 && e[j - |d|].0 in KeySet(e);
        assert d[i].0 in KeySet(d);
      }
    }
  }

  lemma {:induction false} UpdateKeys<V>(d: Dict<V>, e: Dict<V>)
    ensures KeySet(Update(d, e)) == KeySet(d) + KeySet(e)
    ensures DistinctKeys(d) ==> DistinctKeys(Update(d, e))
    decreases |e|
  {
    if e != [] {
      PutKeys(d, e[0].0, e[0].1);
      if DistinctKeys(d) {
        PutDistinct(d, e[0].0, e[0].1);
      }
      UpdateKeys(Put(d, e[0].0, e[0].1), e[1..]);
      assert KeySet(e) == {e[0].0} + KeySet(e[1..]) by {
        assert e == [e[0]] + e[1..];
      }
    }
  }

  /** The optional pair `(k, v)` when the argument is present. */
  function Optional(k: string, v: Option<Value>): (r: Dict<Value>)
    ensures KeySet(r) == if v.Some? then {k} else {}
    ensures DistinctKeys(r)
    ensures forall k' :: Get(r, k') == if k' == k then v else None
  {
    if v.Some? then
      assert KeySet([(k, v.value)]) == {k} by { assert [(k, v.value)][0].0 == k; }
      [(k, v.value)]
    else []
  }

  /** `{"name": x}` and `{"emailAddress": x}` around an optional argument. */
  function Nest(k: string, v: Option<Value>): Option<Value> {
    if v.Some? then Some(Mapping([(k, v.value)])) else None
  }

  /** Decimal digits of a natural number, as `str(n)` prints them. */
  function NatToString(n: nat): (s: string)
    ensures |s| > 0
    ensures forall i :: 0 <= i < |s| ==> '0' <= s[i] <= '9'
    decreases n
  {
    var d := ['0' + (n % 10) as char];
    if n < 10 then d else NatToString(n / 10) + d
  }

  function IntToString(n: int): string {
    if n < 0 then "-" + NatToString(-n) else NatToString(n)
  }

  /** Python's `str(v)`. A string inside a list or a dict is shown quoted. */
  function Show(v: Value): string
    decreases v, 1
  {
    match v
    case Null => "None"
    case Bool(b) => if b then "True" else "False"
    case Num(n) => IntToString(n)
    case Text(s) => s
    case List(xs) => "[" + ShowItems(v, xs) + "]"
    case Mapping(es) => "{" + ShowEntries(v, es) + "}"
    case Object(_, t) => t
  }

  /** Python's `repr(v)`, for the values nested in a list or a dict. */
  function Repr(v: Value): string
    decreases v, 2
  {
    if v.Text? then "'" + v.s + "'" else Show(v)
  }

  function ShowItems(ghost parent: Value, xs: seq<Value>): string
    requires forall x | x in xs :: x < parent
    decreases parent, 0, |xs|
  {
    if xs == [] then ""
    else
      assert xs[0] in xs;
      var first := Repr(xs[0]);
      if |xs| == 1 then first
      else
        assert forall x | x in xs[1..] :: x in xs;
        first + ", " + ShowItems(parent, xs[1..])
  }

  function ShowEntries(ghost parent: Value, es: seq<(string, Value)>): string
    requires forall e | e in es :: e.1 < parent
    decreases parent, 0, |es|
  {
    if es == [] then ""
    else
      assert es[0] in es;
      var first := "'" + es[0].0 + "': " + Repr(es[0].1);
      if |es| == 1 then first
      else
        assert forall e | e in es[1..] :: e in es;
        first + ", " + ShowEntries(parent, es[1..])
  }
}
