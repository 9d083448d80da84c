/** Helpers shared by every component: the optional value, the browser's
    string store, an abstract JSON codec, and the few JavaScript string
    operations the event handlers rely on (`trim`, `toLowerCase`,
    `includes`). */
module Common {

  datatype Option<+T> = None | Some(value: T)

  /** The per-origin `localStorage`: a finite map from keys to strings. */
  type Store = map<string, string>

  /** `localStorage.getItem(key)`, read through JavaScript truthiness:
      a missing key and a stored empty string both read as "nothing saved",
      because the callers guard with `if (saved)`. */
  function Saved(store: Store, key: string): (r: Option<string>)
    ensures r.Some? <==> key in store && store[key] != ""
    ensures r.Some? ==> r.value == store[key]
  {
    if key in store && store[key] != "" then Some(store[key]) else None
  }

  /** `JSON.stringify` / `JSON.parse` for values of type `T`, left abstract.
      `decode` answers `None` where `JSON.parse` would throw. */
  datatype Codec<!T> = Codec(encode: T -> string, decode: string -> Option<T>)

  /** Parsing what was stringified gives the value back. */
  ghost predicate RoundTrips<T(!new)>(c: Codec<T>) {
    forall x :: c.decode(c.encode(x)) == Some(x)
  }

  /** The codec loses nothing and never writes the falsy empty string, so
      what is stored is read back by a truthiness-guarded load. */
  ghost predicate Lossless<T(!new)>(c: Codec<T>) {
    RoundTrips(c) && forall x :: c.encode(x) != ""
  }

  // ---------------------------------------------------------------------
  // String.prototype.trim

  /** The characters `String.prototype.trim` strips: the ECMAScript
      WhiteSpace and LineTerminator code points. */
  predicate IsJsSpace(c: char) {
    c == '\t' || c == '\n' || c == '\U{B}' || c == '\U{C}' || c == '\r'
    || c == ' ' || c == '\U{A0}' || c == '\U{1680}'
    || ('\U{2000}' <= c <= '\U{200A}')
    || c == '\U{2028}' || c == '\U{2029}' || c == '\U{202F}' || c == '\U{205F}'
    || c == '\U{3000}' || c == '\U{FEFF}'
  }

  /** Every character is whitespace, so `s.trim()` is the falsy `''`. */
  predicate Blank(s: string) {
    forall i :: 0 <= i < |s| ==> IsJsSpace(s[i])
  }

  function TrimStart(s: string): (r: string)
    ensures |r| <= |s| && r == s[|s| - |r|..]
    ensures r == [] || !IsJsSpace(r[0])
    ensures Blank(s[..|s| - |r|])
  {
    if s == [] || !IsJsSpace(s[0]) then s
    else
      var t := TrimStart(s[1..]);
      assert s[1..][..|s[1..]| - |t|] == s[1..|s| - |t|];
      t
  }

  function TrimEnd(s: string): (r: string)
    ensures |r| <= |s| && r == s[..|r|]
    ensures r == [] || !IsJsSpace(r[|r| - 1])
    ensures Blank(s[|r|..])
  {
    if s == [] || !IsJsSpace(s[|s| - 1]) then s
    else
      var t := TrimEnd(s[..|s| - 1]);
      assert s[..|s| - 1][|t|..] == s[|t|..|s| - 1];
      t
  }

  /** `s.trim()`: starts and ends with a non-space. */
  function Trim(s: string): (r: string)
    ensures |r| <= |s|
    ensures r == [] || (!IsJsSpace(r[0]) && !IsJsSpace(r[|r| - 1]))
  {
    TrimEnd(TrimStart(s))
  }

  /** What `trim` cuts is whitespace at either end, and what it keeps is
      the middle of `s` in one piece. */
  lemma TrimIsMiddle(s: string, i: nat)
    requires i == |s| - |TrimStart(s)|
    ensures i + |Trim(s)| <= |s| && Trim(s) == s[i..i + |Trim(s)|]
    ensures Blank(s[..i]) && Blank(s[i + |Trim(s)|..])
  {
    TrimKeepsMiddle(s, i, TrimStart(s), Trim(s));
    TrimCutsBlank(s, i, TrimStart(s), Trim(s));
  }

  lemma TrimKeepsMiddle(s: string, i: nat, a: string, r: string)
    requires a == TrimStart(s) && i == |s| - |a| && r == TrimEnd(a)
    ensures i + |r| <= |s| && r == s[i..i + |r|]
  {
    SliceOfSuffix(s, i, |r|);
  }

  lemma TrimCutsBlank(s: string, i: nat, a: string, r: string)
    requires a == TrimStart(s) && i == |s| - |a| && r == TrimEnd(a)
    ensures Blank(s[..i]) && Blank(s[i + |r|..])
  {
    SliceOfSuffix(s, i, |r|);
    assert a[|r|..] == s[i + |r|..];
  }

  lemma SliceOfSuffix(s: string, i: nat, k: nat)
    requires i + k <= |s|
    ensures s[i..][..k] == s[i..i + k] && s[i..][k..] == s[i + k..]
  {
  }

  /** Leading whitespace is all `trimStart` looks at. */
  lemma TrimStartOfBlank(s: string)
    ensures Blank(s) ==> TrimStart(s) == []
  {
    var r := TrimStart(s);
    if r != [] {
      assert !IsJsSpace(s[|s| - |r|]);
    }
  }

  /** `s.trim()` is empty exactly when `s` is all whitespace, so the
      handlers' `if (text.trim())` guard rejects exactly the blank inputs. */
  lemma {:induction false} TrimEmptyIffBlank(s: string)
    ensures Trim(s) == [] <==> Blank(s)
  {
    var a := TrimStart(s);
    if !Blank(s) {
      var i :| 0 <= i < |s| && !IsJsSpace(s[i]);
      assert a[i - (|s| - |a|)] == s[i];
    }
  }

  // ---------------------------------------------------------------------
  // String.prototype.toLowerCase and String.prototype.includes

  /** `toLowerCase` on one character, for the ASCII letters. */
  function LowerChar(c: char): (r: char)
    ensures 'A' <= c <= 'Z' ==> r as int == c as int + 32
    ensures !('A' <= c <= 'Z') ==> r == c
    ensures !('A' <= r <= 'Z')
  {
    if 'A' <= c <= 'Z' then (c as int + 32) as char else c
  }

  function ToLower(s: string): (r: string)
    ensures |r| == |s|
    ensures forall i :: 0 <= i < |s| ==> r[i] == LowerChar(s[i])
  {
    if s == [] then [] else [LowerChar(s[0])] + ToLower(s[1..])
  }

  lemma ToLowerAppend(a: string, b: string)
    ensures ToLower(a + b) == ToLower(a) + ToLower(b)
  {
    var l := ToLower(a + b);
    assert forall i :: 0 <= i < |a| ==> (a + b)[i] == a[i];
    assert forall i :: |a| <= i < |a| + |b| ==> (a + b)[i] == b[i - |a|];
  }

  /** Lower-casing twice is lower-casing once, so comparisons made after
      `toLowerCase()` ignore case. */
  lemma ToLowerIdempotent(s: string)
    ensures ToLower(ToLower(s)) == ToLower(s)
  {
  }

  /** `sub` occurs in `s` starting at position `i`. */
  predicate OccursAt(s: string, sub: string, i: nat)
    requires i + |sub| <= |s|
  {
    s[i..i + |sub|] == sub
  }

  /** `s.includes(sub)`, computed by scanning the start positions. */
  function Includes(s: string, sub: string): (b: bool)
    ensures b <==> exists i: nat :: i + |sub| <= |s| && OccursAt(s, sub, i)
    decreases |s|
  {
    if |sub| > |s| then false
    else if s[..|sub|] == sub then
      assert OccursAt(s, sub, 0);
      true
    else
      var b := Includes(s[1..], sub);
      if b then
        var j: nat :| j + |sub| <= |s[1..]| && OccursAt(s[1..], sub, j);
        assert s[1..][j..j + |sub|] == s[j + 1..j + 1 + |sub|];
        assert OccursAt(s, sub, j + 1);
        true
      else
        forall i: nat | i + |sub| <= |s|
          ensures !OccursAt(s, sub, i)
        {
          if i > 0 {
            assert s[1..][i - 1..i - 1 + |sub|] == s[i..i + |sub|];
            assert !OccursAt(s[1..], sub, i - 1);
          }
        }
        false
  }

  /** Every string includes the empty string: an empty search term matches. */
  lemma IncludesEmpty(s: string)
    ensures Includes(s, "")
  {
    assert OccursAt(s, "", 0);
  }

  /** Occurrences of `x` in `s`. */
  function Count<T(==)>(s: seq<T>, x: T): (n: nat)
    ensures n <= |s|
  {
    if s == [] then 0 else (if s[0] == x then 1 else 0) + Count(s[1..], x)
  }

  lemma {:induction false} CountAppend<T>(a: seq<T>, b: seq<T>, x: T)
    ensures Count(a + b, x) == Count(a, x) + Count(b, x)
  {
    if a == [] {
      assert a + b == b;
    } else {
      assert (a + b)[1..] == a[1..] + b;
      CountAppend(a[1..], b, x);
    }
  }

  lemma {:induction false} CountMultiset<T>(s: seq<T>, x: T)
    ensures Count(s, x) == multiset(s)[x]
  {
    if s != [] {
      assert s == [s[0]] + s[1..];
      CountMultiset(s[1..], x);
    }
  }

  /** No element occurs twice. */
  predicate NoDuplicates<T(==)>(s: seq<T>) {
    forall i, j :: 0 <= i < j < |s| ==> s[i] != s[j]
  }

  // ---------------------------------------------------------------------
  // Array.prototype.filter

  /** `r` is `s` with some elements deleted, the rest kept in order. */
  predicate Subsequence<T(==)>(r: seq<T>, s: seq<T>)
    decreases |s|
  {
    if r == [] then true
    else if s == [] then false
    else (r[0] == s[0] && Subsequence(r[1..], s[1..])) || Subsequence(r, s[1..])
  }

  /** `s.filter(p)`. */
  function Filter<T>(s: seq<T>, p: T -> bool): (r: seq<T>)
    ensures |r| <= |s|
    ensures forall i :: 0 <= i < |r| ==> r[i] in s && p(r[i])
    ensures forall i :: 0 <= i < |s| && p(s[i]) ==> s[i] in r
    ensures Subsequence(r, s)
  {
    if s == [] then []
    else if p(s[0]) then [s[0]] + Filter(s[1..], p)
    else Filter(s[1..], p)
  }

  /** Each passing element is kept as many times as it occurs, each
      failing one not at all. */
  lemma {:induction false} FilterMultiset<T>(s: seq<T>, p: T -> bool)
    ensures forall x :: multiset(Filter(s, p))[x] == (if p(x) then multiset(s)[x] else 0)
  {
    if s != [] {
      assert s == [s[0]] + s[1..];
      FilterMultiset(s[1..], p);
    }
  }

  /** A duplicate-free list stays duplicate-free when filtered. */
  lemma {:induction false} FilterNoDuplicates<T>(s: seq<T>, p: T -> bool)
    requires NoDuplicates(s)
    ensures NoDuplicates(Filter(s, p))
  {
    if s != [] {
      FilterNoDuplicates(s[1..], p);
      var rest := Filter(s[1..], p);
      if p(s[0]) {
        assert s[0] !in s[1..];
        assert s[0] !in rest;
        assert Filter(s, p) == [s[0]] + rest;
      }
    }
  }

  /** Filtering keeps everything when every element passes. */
  lemma {:induction false} FilterAll<T>(s: seq<T>, p: T -> bool)
    requires forall i :: 0 <= i < |s| ==> p(s[i])
    ensures Filter(s, p) == s
  {
    if s != [] {
      FilterAll(s[1..], p);
      assert [s[0]] + s[1..] == s;
    }
  }

  /** Filtering distributes over concatenation. */
  lemma {:induction false} FilterAppend<T>(a: seq<T>, b: seq<T>, p: T -> bool)
    ensures Filter(a + b, p) == Filter(a, p) + Filter(b, p)
  {
    if a == [] {
      assert a + b == b;
    } else {
      assert (a + b)[1..] == a[1..] + b;
      FilterAppend(a[1..], b, p);
    }
  }
}
