/** The small slice of JavaScript value semantics that the catalog and player
    components rely on: parsed JSON values, truthiness, `||`, property reads
    that throw on `null`/`undefined`, `String.prototype.includes`,
    `Array.prototype.includes`, object spread with one overridden field, and
    `String.prototype.trim`. */
module JsValue {

  /** A value as produced by `JSON.parse` (plus `Undefined`, which is what a
      missing property reads as). Numbers are restricted to integers: every
      number the components compare is a count or a seeders figure. */
  datatype Value =
    | Undefined
    | Null
    | Bool(b: bool)
    | Num(n: int)
    | Str(s: string)
    | Arr(elems: seq<Value>)
    | Obj(fields: seq<Field>)

  /** One own enumerable property; an object's fields are kept in the order
      `for...in` and `Object.keys` enumerate them. */
  datatype Field = Field(key: string, val: Value)

  /** The result of evaluating an expression that may raise a TypeError. */
  datatype Completion<T> = Normal(value: T) | Thrown

  /** `!!v` */
  predicate Truthy(v: Value) {
    match v
    case Undefined => false
    case Null => false
    case Bool(b) => b
    case Num(n) => n != 0
    case Str(s) => s != ""
    case Arr(_) => true
    case Obj(_) => true
  }

  /** `v === null || v === undefined`: reading a property of such a value throws. */
  predicate IsNullish(v: Value) {
    v.Undefined? || v.Null?
  }

  /** `typeof v === "object"` (true of `null`, arrays and objects). */
  predicate IsObjectType(v: Value) {
    v.Null? || v.Arr? || v.Obj?
  }

  /** `a || b` */
  function Or(a: Value, b: Value): (r: Value)
    ensures Truthy(r) <==> Truthy(a) || Truthy(b)
    ensures r == a || r == b
  {
    if Truthy(a) then a else b
  }

  /** The value of property `k` among `fields`, `Undefined` when absent. */
  function Lookup(fields: seq<Field>, k: string): (r: Value)
    ensures r != Undefined ==> exists i :: 0 <= i < |fields| && fields[i] == Field(k, r)
    ensures (forall i :: 0 <= i < |fields| ==> fields[i].key != k) ==> r == Undefined
  {
    if |fields| == 0 then Undefined
    else if fields[0].key == k then fields[0].val
    else Lookup(fields[1..], k)
  }

  /** `v.k` for a value that is not `null`/`undefined`; arrays, strings,
      numbers and booleans have none of the named properties the components
      read, so they yield `Undefined`. */
  function Get(v: Value, k: string): Value {
    if v.Obj? then Lookup(v.fields, k) else Undefined
  }

  /** `v.k`, throwing a TypeError when `v` is `null` or `undefined`. */
  function Member(v: Value, k: string): (r: Completion<Value>)
    ensures r.Thrown? <==> IsNullish(v)
    ensures r.Normal? ==> r.value == Get(v, k)
  {
    if IsNullish(v) then Thrown else Normal(Get(v, k))
  }

  /** `v?.k` */
  function OptionalMember(v: Value, k: string): Value {
    if IsNullish(v) then Undefined else Get(v, k)
  }

  predicate StartsWith(s: string, prefix: string) {
    |prefix| <= |s| && s[..|prefix|] == prefix
  }

  /** `s.includes(sub)`: `sub` occurs as a contiguous substring of `s`. */
  predicate Contains(s: string, sub: string)
    decreases |s|
  {
    StartsWith(s, sub) || (|s| > 0 && Contains(s[1..], sub))
  }

  /** `sub` occurs in `s` starting at position `i`. */
  predicate OccursAt(s: string, sub: string, i: int) {
    0 <= i && i + |sub| <= |s| && s[i..i + |sub|] == sub
  }

  /** `Contains` agrees with the positional definition of a substring. */
  lemma {:induction false} ContainsAt(s: string, sub: string)
    ensures Contains(s, sub) <==> exists i :: OccursAt(s, sub, i)
    decreases |s|
  {
    if StartsWith(s, sub) {
      assert OccursAt(s, sub, 0);
    } else if |s| > 0 {
      ContainsAt(s[1..], sub);
      if Contains(s[1..], sub) {
        var i :| OccursAt(s[1..], sub, i);
        assert s[i + 1..i + 1 + |sub|] == s[1..][i..i + |sub|];
        assert OccursAt(s, sub, i + 1);
      }
      if exists i :: OccursAt(s, sub, i) {
        var i :| OccursAt(s, sub, i);
        assert i != 0;
        assert s[1..][i - 1..i - 1 + |sub|] == s[i..i + |sub|];
        assert OccursAt(s[1..], sub, i - 1);
      }
    }
  }

  /** `v.includes(needle)`: strings search for a substring, arrays for an
      element strictly equal to the string; any other receiver has no
      `includes` method, so the call throws. */
  function IncludesCall(v: Value, needle: string): (r: Completion<bool>)
    ensures r.Normal? <==> v.Str? || v.Arr?
    ensures v.Str? ==> r == Normal(Contains(v.s, needle))
    ensures v.Arr? ==> r == Normal(Str(needle) in v.elems)
  {
    match v
    case Str(s) => Normal(Contains(s, needle))
    case Arr(es) => Normal(Str(needle) in es)
    case _ => Thrown
  }

  /** `{...obj, [k]: x}` on an object: an existing `k` keeps its position and
      takes the new value, otherwise `k` is appended last. */
  function SetField(fields: seq<Field>, k: string, x: Value): (r: seq<Field>)
    ensures |r| >= |fields|
  {
    if |fields| == 0 then [Field(k, x)]
    else if fields[0].key == k then [Field(k, x)] + fields[1..]
    else [fields[0]] + SetField(fields[1..], k, x)
  }

  /** The copy maps `k` to `x` and every other key as before. */
  lemma {:induction false} SetFieldSpec(fields: seq<Field>, k: string, x: Value)
    ensures Lookup(SetField(fields, k, x), k) == x
    ensures forall k' :: k' != k ==> Lookup(SetField(fields, k, x), k') == Lookup(fields, k')
    decreases |fields|
  {
    if |fields| == 0 {
      LookupCons(Field(k, x), []);
    } else {
      var tail := fields[1..];
      assert [fields[0]] + tail == fields;
      LookupCons(fields[0], tail);
      if fields[0].key == k {
        LookupCons(Field(k, x), tail);
      } else {
        var rest := SetField(tail, k, x);
        SetFieldSpec(tail, k, x);
        LookupCons(fields[0], rest);
      }
    }
  }

  /** The copy keeps the existing fields' keys in their places. */
  lemma {:induction false} SetFieldKeys(fields: seq<Field>, k: string, x: Value)
    ensures forall i :: 0 <= i < |fields| ==> SetField(fields, k, x)[i].key == fields[i].key
    decreases |fields|
  {
    if |fields| > 0 {
      var tail := fields[1..];
      assert [fields[0]] + tail == fields;
      if fields[0].key == k {
        KeysCons(fields[0], tail, Field(k, x), tail);
      } else {
        SetFieldKeys(tail, k, x);
        KeysCons(fields[0], tail, fields[0], SetField(tail, k, x));
      }
    }
  }

  /** Lookup in a list of fields starts at its first field. */
  lemma LookupCons(f: Field, rest: seq<Field>)
    ensures forall k :: Lookup([f] + rest, k) == if f.key == k then f.val else Lookup(rest, k)
  {
    assert ([f] + rest)[1..] == rest;
  }

  /** A first field with the same key, followed by fields keyed like the
      rest, is keyed like the whole list. */
  lemma KeysCons(f0: Field, tail: seq<Field>, f: Field, rest: seq<Field>)
    requires f.key == f0.key && |tail| <= |rest|
    requires forall i :: 0 <= i < |tail| ==> rest[i].key == tail[i].key
    ensures forall i :: 0 <= i < |[f0] + tail| ==> ([f] + rest)[i].key == ([f0] + tail)[i].key
  {
    forall i | 0 <= i < |[f0] + tail|
      ensures ([f] + rest)[i].key == ([f0] + tail)[i].key
    {
      if i > 0 {
        assert ([f0] + tail)[i] == tail[i - 1];
        assert ([f] + rest)[i] == rest[i - 1];
      }
    }
  }

  /** `arr.filter(p)` where `p` reads a property of every element: the call
      throws when any element is `null` or `undefined`. */
  function FilterItems(es: seq<Value>, p: Value -> bool): (r: Completion<seq<Value>>)
    ensures r.Thrown? <==> exists i :: 0 <= i < |es| && IsNullish(es[i])
    ensures r.Normal? ==> r.value == Filter(es, p)
  {
    if exists i :: 0 <= i < |es| && IsNullish(es[i]) then Thrown else Normal(Filter(es, p))
  }

  /** `arr.filter(p)`: the elements satisfying `p`, in their original order. */
  function Filter(es: seq<Value>, p: Value -> bool): (r: seq<Value>)
    ensures |r| <= |es|
    ensures forall x :: x in r ==> x in es && p(x)
    ensures forall i :: 0 <= i < |es| && p(es[i]) ==> es[i] in r
  {
    if |es| == 0 then []
    else (if p(es[0]) then [es[0]] else []) + Filter(es[1..], p)
  }

  /** `a` can be obtained from `b` by deleting elements. */
  predicate IsSubsequence(a: seq<Value>, b: seq<Value>)
    decreases |b|
  {
    |a| == 0 || (|b| > 0 && ((a[0] == b[0] && IsSubsequence(a[1..], b[1..])) || IsSubsequence(a, b[1..])))
  }

  lemma {:induction false} FilterIsSubsequence(es: seq<Value>, p: Value -> bool)
    ensures IsSubsequence(Filter(es, p), es)
    decreases |es|
  {
    if |es| > 0 {
      FilterIsSubsequence(es[1..], p);
      if p(es[0]) {
        assert Filter(es, p) == [es[0]] + Filter(es[1..], p);
        assert Filter(es, p)[1..] == Filter(es[1..], p);
      } else {
        assert Filter(es, p) == Filter(es[1..], p);
      }
    }
  }

  lemma {:induction false} FilterConcat(a: seq<Value>, b: seq<Value>, p: Value -> bool)
    ensures Filter(a + b, p) == Filter(a, p) + Filter(b, p)
    decreases |a|
  {
    if |a| > 0 {
      var ab, head := a + b, if p(a[0]) then [a[0]] else [];
      assert ab[0] == a[0] && ab[1..] == a[1..] + b;
      FilterConcat(a[1..], b, p);
      JoinHead(Filter(ab, p), head, Filter(ab[1..], p), Filter(a, p), Filter(a[1..], p), Filter(b, p));
    } else {
      assert a + b == b;
    }
  }

  /** The bookkeeping step of `FilterConcat`, over plain sequences. */
  lemma JoinHead(whole: seq<Value>, head: seq<Value>, rest: seq<Value>, fa: seq<Value>, ta: seq<Value>, fb: seq<Value>)
    requires whole == head + rest && rest == ta + fb && fa == head + ta
    ensures whole == fa + fb
  {
  }

  /** Filtering keeps a sequence whole exactly when every element passes. */
  lemma FilterKeepsAll(es: seq<Value>, p: Value -> bool)
    ensures Filter(es, p) == es <==> forall i :: 0 <= i < |es| ==> p(es[i])
  {
    if forall i :: 0 <= i < |es| ==> p(es[i]) {
      FilterAllPass(es, p);
    }
    if Filter(es, p) == es {
      forall i | 0 <= i < |es| ensures p(es[i]) {
        assert es[i] in Filter(es, p);
      }
    }
  }

  /** When every element passes, filtering changes nothing. */
  lemma {:induction false} FilterAllPass(es: seq<Value>, p: Value -> bool)
    requires forall i :: 0 <= i < |es| ==> p(es[i])
    ensures Filter(es, p) == es
    decreases |es|
  {
    if |es| > 0 {
      var tail := es[1..];
      assert forall i :: 0 <= i < |tail| ==> p(tail[i]) by {
        forall i | 0 <= i < |tail| ensures p(tail[i]) {
          assert tail[i] == es[i + 1];
        }
      }
      FilterAllPass(tail, p);
      assert Filter(es, p) == [es[0]] + tail;
    }
  }

  /** Filtering drops everything when no element passes. */
  lemma {:induction false} FilterDropsAll(es: seq<Value>, p: Value -> bool)
    requires forall i :: 0 <= i < |es| ==> !p(es[i])
    ensures Filter(es, p) == []
    decreases |es|
  {
    if |es| > 0 {
      assert forall i :: 0 <= i < |es[1..]| ==> !p(es[1..][i]) by {
        forall i | 0 <= i < |es[1..]| ensures !p(es[1..][i]) {
          assert es[1..][i] == es[i + 1];
        }
      }
      FilterDropsAll(es[1..], p);
    }
  }

  /** `arr.map(f)` where `f` may throw: the first throwing element aborts it. */
  function MapItems(es: seq<Value>, f: Value -> Completion<Value>): (r: Completion<seq<Value>>)
    ensures r.Thrown? <==> exists i :: 0 <= i < |es| && f(es[i]).Thrown?
    ensures r.Normal? ==> |r.value| == |es| && forall i :: 0 <= i < |es| ==> f(es[i]) == Normal(r.value[i])
  {
    if |es| == 0 then Normal([])
    else
      match f(es[0])
      case Thrown => Thrown
      case Normal(x) =>
        match MapItems(es[1..], f)
        case Thrown => Thrown
        case Normal(rest) => Normal([x] + rest)
  }

  /** `arr.filter(p)` where the test `p` may throw on some element. */
  function FilterTry(es: seq<Value>, p: Value -> Completion<bool>): (r: Completion<seq<Value>>)
    ensures r.Thrown? <==> exists i :: 0 <= i < |es| && p(es[i]).Thrown?
    ensures r.Normal? ==> r.value == Filter(es, x => p(x) == Normal(true))
  {
    if |es| == 0 then Normal([])
    else
      match p(es[0])
      case Thrown => Thrown
      case Normal(keep) =>
        match FilterTry(es[1..], p)
        case Thrown => Thrown
        case Normal(rest) => Normal((if keep then [es[0]] else []) + rest)
  }

  /** `arr.findIndex(p)` where the test `p` may throw: the first index
      whose test holds, or -1, or `Thrown` when a test before that raises. */
  function FindIndexTry(es: seq<Value>, p: Value -> Completion<bool>): (r: Completion<int>)
    ensures r.Normal? ==> -1 <= r.value < |es|
    ensures r.Normal? && r.value >= 0 ==> p(es[r.value]) == Normal(true)
    ensures r.Normal? ==> forall j :: 0 <= j < |es| && (r.value < 0 || j < r.value) ==> p(es[j]) == Normal(false)
    ensures r.Thrown? ==> exists i :: 0 <= i < |es| && p(es[i]).Thrown? && forall j :: 0 <= j < i ==> p(es[j]) == Normal(false)
  {
    if |es| == 0 then Normal(-1)
    else
      match p(es[0])
      case Thrown => Thrown
      case Normal(hit) =>
        if hit then Normal(0)
        else
          match FindIndexTry(es[1..], p)
          case Thrown =>
            ghost var i :| 0 <= i < |es[1..]| && p(es[1..][i]).Thrown? && forall j :: 0 <= j < i ==> p(es[1..][j]) == Normal(false);
            assert p(es[i + 1]).Thrown? && forall j :: 0 <= j < i + 1 ==> p(es[j]) == Normal(false) by {
              forall j | 0 <= j < i + 1 ensures p(es[j]) == Normal(false) {
                if j > 0 { assert es[j] == es[1..][j - 1]; }
              }
            }
            Thrown
          case Normal(k) => Normal(if k < 0 then -1 else k + 1)
  }

  /** `arr.find(p)`: the first element whose test holds, or `undefined`. */
  function FindTry(es: seq<Value>, p: Value -> Completion<bool>): (r: Completion<Value>)
    ensures r.Thrown? <==> FindIndexTry(es, p).Thrown?
    ensures r.Normal? ==> r.value == (if FindIndexTry(es, p).value < 0 then Undefined else es[FindIndexTry(es, p).value])
  {
    match FindIndexTry(es, p)
    case Thrown => Thrown
    case Normal(i) => Normal(if i < 0 then Undefined else es[i])
  }

  /** The white-space characters `String.prototype.trim` removes: the
      ECMAScript WhiteSpace and LineTerminator code points. */
  predicate IsWhiteSpace(c: char) {
    c == ' ' || c == '\t' || c == '\n' || c == '\r' || c == '\U{B}' || c == '\U{C}'
    || c == '\U{A0}' || c == '\U{1680}' || ('\U{2000}' <= c <= '\U{200A}')
    || c == '\U{2028}' || c == '\U{2029}' || c == '\U{202F}' || c == '\U{205F}'
    || c == '\U{3000}' || c == '\U{FEFF}'
  }

  /** `t` is `s` after its leading white space. */
  predicate StripsLeading(s: string, t: string) {
    |t| <= |s| && t == s[|s| - |t|..]
    && (|t| > 0 ==> !IsWhiteSpace(t[0]))
    && forall i :: 0 <= i < |s| - |t| ==> IsWhiteSpace(s[i])
  }

  /** `r` is `s` before its trailing white space. */
  predicate StripsTrailing(s: string, r: string) {
    |r| <= |s| && r == s[..|r|]
    && (|r| > 0 ==> !IsWhiteSpace(r[|r| - 1]))
    && forall i :: |r| <= i < |s| ==> IsWhiteSpace(s[i])
  }

  function TrimStart(s: string): (r: string)
    ensures StripsLeading(s, r)
  {
    if |s| > 0 && IsWhiteSpace(s[0]) then TrimStart(s[1..]) else s
  }

  function TrimEnd(s: string): (r: string)
    ensures StripsTrailing(s, r)
  {
    if |s| > 0 && IsWhiteSpace(s[|s| - 1]) then TrimEnd(s[..|s| - 1]) else s
  }

  /** `r` is `s` with the white space before position `lo` and after
      position `lo + |r|` removed. */
  predicate TrimsTo(s: string, r: string, lo: int) {
    0 <= lo && lo + |r| <= |s| && r == s[lo..lo + |r|]
    && (forall i :: 0 <= i < lo ==> IsWhiteSpace(s[i]))
    && (forall i :: lo + |r| <= i < |s| ==> IsWhiteSpace(s[i]))
  }

  /** `s.trim()`: the slice of `s` that neither starts nor ends with white
      space, obtained by dropping white space only. */
  function Trim(s: string): (r: string)
    ensures |r| > 0 ==> !IsWhiteSpace(r[0]) && !IsWhiteSpace(r[|r| - 1])
    ensures TrimsTo(s, r, |s| - |TrimStart(s)|)
  {
    var t := TrimStart(s);
    var r := TrimEnd(t);
    TrimSlices(s, t, r);
    r
  }

  /** A suffix `t` of `s` after a run of white space, and a prefix `r` of `t`
      followed by a run of it, make `r` a slice of `s` surrounded by white
      space only. */
  lemma TrimSlices(s: string, t: string, r: string)
    requires StripsLeading(s, t) && StripsTrailing(t, r)
    ensures |r| > 0 ==> !IsWhiteSpace(r[0]) && !IsWhiteSpace(r[|r| - 1])
    ensures TrimsTo(s, r, |s| - |t|)
  {
    var lo := |s| - |t|;
    if |r| > 0 {
      assert r[0] == t[0];
    }
    forall i | lo + |r| <= i < |s|
      ensures IsWhiteSpace(s[i])
    {
      assert s[i] == t[i - lo];
    }
  }
}
