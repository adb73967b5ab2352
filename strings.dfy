/** String operations of JavaScript that the core relies on, over `seq<char>`. */
module Strings {

  /** The number of occurrences of `c` in `s`. */
  function Count(s: string, c: char): (n: nat)
    ensures n <= |s|
    ensures n == 0 <==> c !in s
  {
    if s == [] then 0 else (if s[0] == c then 1 else 0) + Count(s[1..], c)
  }

  lemma {:induction false} CountAppend(a: string, b: string, c: char)
    ensures Count(a + b, c) == Count(a, c) + Count(b, c)
  {
    if a != [] {
      assert (a + b)[1..] == a[1..] + b;
      CountAppend(a[1..], b, c);
    } else {
      assert a + b == b;
    }
  }

  /** `sub` occurs in `s` starting at index `i`. */
  ghost predicate OccursAt(s: string, sub: string, i: int)
  {
    0 <= i && i + |sub| <= |s| && s[i..i + |sub|] == sub
  }

  /** `s.includes(sub)`: `sub` occurs somewhere in `s` (the empty string occurs everywhere). */
  function Includes(s: string, sub: string): (b: bool)
    ensures b <==> exists i :: OccursAt(s, sub, i)
    decreases |s|
  {
    if |sub| > |s| then
      false
    else if s[..|sub|] == sub then
      assert OccursAt(s, sub, 0);
      true
    else
      var r := Includes(s[1..], sub);
      assert r ==> exists i :: OccursAt(s, sub, i) by {
        if r {
          var i :| OccursAt(s[1..], sub, i);
          assert s[1..][i..i + |sub|] == s[i + 1..i + 1 + |sub|];
          assert OccursAt(s, sub, i + 1);
        }
      }
      assert (exists i :: OccursAt(s, sub, i)) ==> r by {
        if exists i :: OccursAt(s, sub, i) {
          var i :| OccursAt(s, sub, i);
          assert i != 0;
          assert s[1..][i - 1..i - 1 + |sub|] == s[i..i + |sub|];
          assert OccursAt(s[1..], sub, i - 1);
        }
      }
      r
  }

  /** `s.replaceAll(c, "")` for a one-character pattern: `s` with every `c` removed. */
  function RemoveAll(s: string, c: char): (r: string)
    ensures |r| <= |s|
  {
    if s == [] then []
    else if s[0] == c then RemoveAll(s[1..], c)
    else [s[0]] + RemoveAll(s[1..], c)
  }

  lemma {:induction false} RemoveAllRemoves(s: string, c: char)
    ensures c !in RemoveAll(s, c)
    ensures |RemoveAll(s, c)| == |s| - Count(s, c)
  {
    if s != [] {
      RemoveAllRemoves(s[1..], c);
    }
  }

  lemma RemoveAllCons(x: char, s: string, c: char)
    ensures RemoveAll([x] + s, c) == (if x == c then [] else [x]) + RemoveAll(s, c)
  {
    assert ([x] + s)[0] == x;
    assert ([x] + s)[1..] == s;
  }

  lemma {:induction false} RemoveAllAppend(a: string, b: string, c: char)
    ensures RemoveAll(a + b, c) == RemoveAll(a, c) + RemoveAll(b, c)
  {
    if a == [] {
      assert a + b == b;
    } else {
      var head, rest := a[0], a[1..];
      assert a == [head] + rest;
      assert a + b == [head] + (rest + b);
      RemoveAllCons(head, rest + b, c);
      RemoveAllCons(head, rest, c);
      RemoveAllAppend(rest, b, c);
    }
  }

  /** Every other character occurs as often as before. */
  lemma {:induction false} RemoveAllCount(s: string, c: char, x: char)
    requires x != c
    ensures Count(RemoveAll(s, c), x) == Count(s, x)
  {
    if s != [] {
      RemoveAllCount(s[1..], c, x);
      if s[0] != c {
        assert RemoveAll(s, c) == [s[0]] + RemoveAll(s[1..], c);
        assert ([s[0]] + RemoveAll(s[1..], c))[1..] == RemoveAll(s[1..], c);
      }
    }
  }

  /** Removing from a string that has no `c` changes nothing. */
  lemma {:induction false} RemoveAllAbsent(s: string, c: char)
    requires c !in s
    ensures RemoveAll(s, c) == s
  {
    if s != [] {
      assert c !in s[1..];
      RemoveAllAbsent(s[1..], c);
    }
  }

  lemma RemoveAllIdempotent(s: string, c: char)
    ensures RemoveAll(RemoveAll(s, c), c) == RemoveAll(s, c)
  {
    RemoveAllRemoves(s, c);
    RemoveAllAbsent(RemoveAll(s, c), c);
  }

  /** Every character of the result comes from `s`. */
  lemma {:induction false} RemoveAllKeeps(s: string, c: char)
    ensures forall x :: x in RemoveAll(s, c) ==> x in s
  {
    if s != [] {
      RemoveAllKeeps(s[1..], c);
    }
  }

  /** The concatenation of `f(x)` for the elements `x` of `t`, in order. */
  function ConcatMap<T>(t: seq<T>, f: T -> string): string
  {
    if t == [] then "" else ConcatMap(t[..|t| - 1], f) + f(t[|t| - 1])
  }

  lemma ConcatMapSnoc<T>(t: seq<T>, x: T, f: T -> string)
    ensures ConcatMap(t + [x], f) == ConcatMap(t, f) + f(x)
  {
    assert (t + [x])[..|t|] == t;
  }

  lemma {:induction false} ConcatMapAppend<T>(a: seq<T>, b: seq<T>, f: T -> string)
    ensures ConcatMap(a + b, f) == ConcatMap(a, f) + ConcatMap(b, f)
  {
    if b == [] {
      assert a + b == a;
    } else {
      var init, last := b[..|b| - 1], b[|b| - 1];
      assert b == init + [last];
      assert a + b == (a + init) + [last];
      ConcatMapAppend(a, init, f);
      ConcatMapSnoc(a + init, last, f);
      ConcatMapSnoc(init, last, f);
    }
  }

  /** When every piece holds exactly one `c`, the concatenation holds one `c` per element. */
  lemma {:induction false} ConcatMapCountOne<T>(t: seq<T>, f: T -> string, c: char)
    requires forall x :: x in t ==> Count(f(x), c) == 1
    ensures Count(ConcatMap(t, f), c) == |t|
  {
    if t != [] {
      var init, last := t[..|t| - 1], t[|t| - 1];
      assert t == init + [last];
      ConcatMapCountOne(init, f, c);
      ConcatMapSnoc(init, last, f);
      CountAppend(ConcatMap(init, f), f(last), c);
    }
  }
}
