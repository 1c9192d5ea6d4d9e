/** Values and sequence facts shared by every model. */
module Prelude {

  datatype Option<+T> = None | Some(value: T)

  datatype Result<+T, +E> = Ok(value: T) | Err(error: E) {
    predicate IsFailure() { Err? }

    function PropagateFailure<U>(): Result<U, E>
      requires Err?
    {
      Err(error)
    }

    function Extract(): T
      requires Ok?
    {
      value
    }
  }

  /** A decoded JSON value. */
  datatype JVal =
    | JNull
    | JBool(flag: bool)
    | JNum(number: int)
    | JStr(text: string)
    | JList(items: seq<JVal>)
    | JObj(members: map<string, JVal>)

  /** How json.loads ends: a value, JSONDecodeError, a plain ValueError, or RecursionError. */
  datatype Loads = Loaded(value: JVal) | NotJson | TooManyDigits | TooDeep

  /** Python's bool(value) */
  predicate Truthy(v: JVal) {
    match v
    case JNull => false
    case JBool(b) => b
    case JNum(n) => n != 0
    case JStr(s) => s != ""
    case JList(items) => items != []
    case JObj(m) => m != map[]
  }

  /** dict.get(key) */
  function Lookup(m: map<string, JVal>, key: string): JVal { if key in m then m[key] else JNull }

  type Byte = x: int | 0 <= x < 256

  /** One value of a Redis list: an opaque byte string. */
  type Raw = seq<Byte>

  /** LREM key 1 x: drop the first element equal to `x`. */
  function RemoveFirst<T(==)>(s: seq<T>, x: T): (r: seq<T>)
    ensures x in s ==> multiset(r) == multiset(s) - multiset{x} && |r| == |s| - 1
    ensures x !in s ==> r == s
    ensures forall y :: y in r ==> y in s
  {
    if s == [] then []
    else if s[0] == x then
      assert s == [s[0]] + s[1..];
      s[1..]
    else
      assert s == [s[0]] + s[1..];
      [s[0]] + RemoveFirst(s[1..], x)
  }

  /** LTRIM key -cap -1, where cap 0 means no cap. */
  function KeepLast<T>(s: seq<T>, cap: nat): (r: seq<T>)
    ensures IsSuffix(r, s)
    ensures cap > 0 ==> |r| == if |s| <= cap then |s| else cap
  {
    if cap == 0 || |s| <= cap then s else s[|s| - cap..]
  }

  lemma KeepLastTwice<T>(a: seq<T>, b: seq<T>, cap: nat)
    ensures KeepLast(KeepLast(a, cap) + b, cap) == KeepLast(a + b, cap)
  {
    hide IsSuffix;
    if cap > 0 && |a| > cap {
      var cut := |a| - cap;
      assert a[cut..] + b == (a + b)[cut..];
      assert (a + b)[cut..][|b|..] == (a + b)[cut + |b|..];
    }
  }

  ghost predicate IsSuffix<T>(a: seq<T>, b: seq<T>) {
    |a| <= |b| && a == b[|b| - |a|..]
  }

  lemma SuffixOfSuffix<T>(a: seq<T>, b: seq<T>, c: seq<T>)
    requires IsSuffix(a, b) && IsSuffix(b, c)
    ensures IsSuffix(a, c)
  {
    assert a == c[|c| - |a|..] by {
      forall i | 0 <= i < |a| ensures a[i] == c[|c| - |a| + i] {
        assert a[i] == b[|b| - |a| + i];
      }
    }
  }

  lemma SuffixAppend<T>(a: seq<T>, b: seq<T>, x: T)
    requires IsSuffix(a, b)
    ensures IsSuffix(a + [x], b + [x])
  {
    assert (b + [x])[|b| - |a|..] == b[|b| - |a|..] + [x];
  }

  /** `a` can be obtained from `b` by deleting elements. */
  ghost predicate IsSubsequence<T>(a: seq<T>, b: seq<T>)
    decreases |b|
  {
    if a == [] then true
    else if b == [] then false
    else if a[|a| - 1] == b[|b| - 1] then IsSubsequence(a[..|a| - 1], b[..|b| - 1])
    else IsSubsequence(a, b[..|b| - 1])
  }

  lemma {:induction false} SubsequenceDropLast<T>(a: seq<T>, b: seq<T>)
    requires a != [] && IsSubsequence(a, b)
    ensures IsSubsequence(a[..|a| - 1], b)
    decreases |b|, 0
  {
    if |a| > 1 {
      if a[|a| - 1] == b[|b| - 1] {
        SubsequenceSkip(a[..|a| - 1], b[..|b| - 1], b[|b| - 1]);
        assert b[..|b| - 1] + [b[|b| - 1]] == b;
      } else {
        SubsequenceDropLast(a, b[..|b| - 1]);
        SubsequenceSkip(a[..|a| - 1], b[..|b| - 1], b[|b| - 1]);
        assert b[..|b| - 1] + [b[|b| - 1]] == b;
      }
    }
  }

  /** Appending to the longer sequence keeps the relation. */
  lemma {:induction false} SubsequenceSkip<T>(a: seq<T>, b: seq<T>, x: T)
    requires IsSubsequence(a, b)
    ensures IsSubsequence(a, b + [x])
    decreases |b|, 1
  {
    assert (b + [x])[..|b|] == b;
    if a != [] && a[|a| - 1] == x {
      SubsequenceDropLast(a, b);
    }
  }

  lemma SubsequenceAppend<T>(a: seq<T>, b: seq<T>, x: T)
    requires IsSubsequence(a, b)
    ensures IsSubsequence(a + [x], b + [x])
  {
    assert (b + [x])[..|b|] == b;
    assert (a + [x])[..|a|] == a;
  }

  lemma {:induction false} SubsequencePrefix<T>(a: seq<T>, b: seq<T>, c: seq<T>)
    requires IsSubsequence(a, b)
    ensures IsSubsequence(a, b + c)
    decreases |c|
  {
    if c == [] {
      assert b + c == b;
    } else {
      SubsequencePrefix(a, b, c[..|c| - 1]);
      SubsequenceSkip(a, b + c[..|c| - 1], c[|c| - 1]);
      assert b + c[..|c| - 1] + [c[|c| - 1]] == b + c;
    }
  }
}
