/** The array built-ins the client stores use, specialised to the one way they
    use them: matching an element by a string key such as `_id`.
    `key` extracts that field from an element. */
module JsArray {

  /** `s.findIndex(x => key(x) === id)`: the first matching index, or -1. */
  function FindIndexById<T>(s: seq<T>, key: T -> string, id: string): (i: int)
    ensures -1 <= i < |s|
    ensures i == -1 <==> forall j :: 0 <= j < |s| ==> key(s[j]) != id
    ensures 0 <= i ==> key(s[i]) == id && forall j :: 0 <= j < i ==> key(s[j]) != id
  {
    if s == [] then -1
    else if key(s[0]) == id then 0
    else
      var k := FindIndexById(s[1..], key, id);
      if k == -1 then -1 else k + 1
  }

  /** The number of elements whose key is `id`. */
  function CountId<T>(s: seq<T>, key: T -> string, id: string): (n: nat)
    ensures n <= |s|
    ensures n == 0 <==> forall j :: 0 <= j < |s| ==> key(s[j]) != id
  {
    if s == [] then 0
    else (if key(s[0]) == id then 1 else 0) + CountId(s[1..], key, id)
  }

  /** `s.filter(x => key(x) !== id)`: every element whose key differs from `id`. */
  function WithoutId<T>(s: seq<T>, key: T -> string, id: string): (r: seq<T>)
    ensures |r| == |s| - CountId(s, key, id)
    ensures forall x :: x in r ==> x in s && key(x) != id
    ensures forall x :: x in s && key(x) != id ==> x in r
  {
    if s == [] then []
    else if key(s[0]) == id then WithoutId(s[1..], key, id)
    else [s[0]] + WithoutId(s[1..], key, id)
  }

  /** The whole array after `const i = s.findIndex(...); if (i !== -1) s[i] = x;`,
      defined element by element from the front. */
  function ReplaceFirstById<T>(s: seq<T>, key: T -> string, id: string, x: T): (r: seq<T>)
    ensures |r| == |s|
  {
    if s == [] then []
    else if key(s[0]) == id then [x] + s[1..]
    else [s[0]] + ReplaceFirstById(s[1..], key, id, x)
  }

  /** Filtering distributes over concatenation, so it keeps the relative order
      of the elements it keeps. */
  lemma {:induction false} WithoutIdAppend<T>(a: seq<T>, b: seq<T>, key: T -> string, id: string)
    ensures WithoutId(a + b, key, id) == WithoutId(a, key, id) + WithoutId(b, key, id)
  {
    if a != [] {
      assert (a + b)[1..] == a[1..] + b;
      WithoutIdAppend(a[1..], b, key, id);
    } else {
      assert a + b == b;
    }
  }

  /** Filtering removes nothing from an array with no matching element. */
  lemma {:induction false} WithoutIdNoMatch<T>(s: seq<T>, key: T -> string, id: string)
    requires forall j :: 0 <= j < |s| ==> key(s[j]) != id
    ensures WithoutId(s, key, id) == s
  {
    if s != [] {
      WithoutIdNoMatch(s[1..], key, id);
    }
  }

  /** The replace-first update is the index assignment at `findIndex`'s answer,
      and the identity when nothing matches. */
  lemma {:induction false} ReplaceFirstIsIndexUpdate<T>(s: seq<T>, key: T -> string, id: string, x: T)
    ensures FindIndexById(s, key, id) == -1 ==> ReplaceFirstById(s, key, id, x) == s
    ensures FindIndexById(s, key, id) >= 0 ==>
              ReplaceFirstById(s, key, id, x) == s[FindIndexById(s, key, id) := x]
  {
    if s != [] && key(s[0]) != id {
      ReplaceFirstIsIndexUpdate(s[1..], key, id, x);
      var k := FindIndexById(s[1..], key, id);
      if k >= 0 {
        assert [s[0]] + s[1..][k := x] == s[k + 1 := x];
      } else {
        assert [s[0]] + s[1..] == s;
      }
    }
  }

  /** What the replace-first update promises: the length is kept, the first
      match holds `x`, and every other index holds what it held before. */
  lemma ReplaceFirstFrame<T>(s: seq<T>, key: T -> string, id: string, x: T, j: int)
    requires 0 <= j < |s|
    ensures |ReplaceFirstById(s, key, id, x)| == |s|
    ensures ReplaceFirstById(s, key, id, x)[j] ==
              if j == FindIndexById(s, key, id) then x else s[j]
  {
    ReplaceFirstIsIndexUpdate(s, key, id, x);
  }

  /** Appending an element behind an array without a match: `findIndex` finds
      the new element if it matches, and nothing otherwise. */
  lemma {:induction false} FindIndexByIdAppend<T>(s: seq<T>, x: T, key: T -> string, id: string)
    requires FindIndexById(s, key, id) == -1
    ensures FindIndexById(s + [x], key, id) == if key(x) == id then |s| else -1
  {
    if s != [] {
      assert (s + [x])[1..] == s[1..] + [x];
      FindIndexByIdAppend(s[1..], x, key, id);
    }
  }
}
