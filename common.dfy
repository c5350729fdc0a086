/**
 * Value types and JavaScript string built-ins shared by the backend and
 * frontend models: Option/Result, Array.prototype.filter,
 * String.prototype.split/join/trim, Number.prototype.toString, the UTF-16
 * `length` and ASCII upper-casing.
 */
module Common {

  datatype Option<+T> = None | Some(value: T)

  /** A result or the error a JavaScript function throws; usable with `:-`. */
  datatype Result<+T, +E> = Ok(value: T) | Err(error: E) {
    predicate IsFailure() { Err? }
    function PropagateFailure<U>(): Result<U, E> requires Err? { Err(error) }
    function Extract(): T requires Ok? { value }
  }

  /** `Array.prototype.filter`: the elements satisfying `p`, in their order. */
  function Filter<T>(s: seq<T>, p: T -> bool): (r: seq<T>)
    ensures |r| <= |s|
    ensures forall i :: 0 <= i < |r| ==> r[i] in s && p(r[i])
    ensures forall i :: 0 <= i < |s| && p(s[i]) ==> s[i] in r
  {
    if s == [] then []
    else if p(s[0]) then [s[0]] + Filter(s[1..], p)
    else Filter(s[1..], p)
  }

  /** Filtering distributes over concatenation, so the order of the kept elements is the input order. */
  lemma {:induction false} FilterAppend<T>(a: seq<T>, b: seq<T>, p: T -> bool)
    ensures Filter(a + b, p) == Filter(a, p) + Filter(b, p)
  {
    if a == [] {
      assert a + b == b;
    } else {
      assert (a + b)[0] == a[0];
      assert (a + b)[1..] == a[1..] + b;
      FilterAppend(a[1..], b, p);
    }
  }

  /**
   * `s.map(f)` where `f` may throw: the mapped sequence, or the first
   * error in order, as JavaScript evaluation gives it.
   */
  function MapResult<A, B, E>(s: seq<A>, f: A -> Result<B, E>): (r: Result<seq<B>, E>)
    ensures r.Ok? <==> forall i :: 0 <= i < |s| ==> f(s[i]).Ok?
    ensures r.Ok? ==> |r.value| == |s| && forall i :: 0 <= i < |s| ==> r.value[i] == f(s[i]).value
    ensures r.Err? ==> exists i :: 0 <= i < |s| && f(s[i]) == Err(r.error) && forall j :: 0 <= j < i ==> f(s[j]).Ok?
  {
    if s == [] then Ok([])
    else
      match f(s[0])
      case Err(e) => Err(e)
      case Ok(b) =>
        match MapResult(s[1..], f)
        case Err(e) =>
          ghost var k :| 0 <= k < |s| - 1 && f(s[1..][k]) == Err(e) && forall j :: 0 <= j < k ==> f(s[1..][j]).Ok?;
          assert f(s[k + 1]) == Err(e);
          assert forall j :: 1 <= j < k + 1 ==> f(s[j]) == f(s[1..][j - 1]);
          Err(e)
        case Ok(rest) => Ok([b] + rest)
  }

  /** No two elements of `s` share a key. */
  predicate DistinctBy<T, K(==)>(s: seq<T>, key: T -> K)
  {
    forall i, j :: 0 <= i < j < |s| ==> key(s[i]) != key(s[j])
  }

  /** Filtering keeps the elements' keys distinct. */
  lemma {:induction false} FilterDistinct<T, K>(s: seq<T>, p: T -> bool, key: T -> K)
    requires DistinctBy(s, key)
    ensures DistinctBy(Filter(s, p), key)
  {
    if s != [] {
      var tail := Filter(s[1..], p);
      FilterDistinct(s[1..], p, key);
      if p(s[0]) {
        var r := Filter(s, p);
        assert r == [s[0]] + tail;
        forall i, j | 0 <= i < j < |r| ensures key(r[i]) != key(r[j]) {
          if i == 0 {
            assert r[j] == tail[j - 1];
            var k :| 0 <= k < |s[1..]| && s[1..][k] == tail[j - 1];
            assert s[k + 1] == r[j];
          } else {
            assert r[i] == tail[i - 1] && r[j] == tail[j - 1];
          }
        }
      }
    }
  }

  predicate SortedDesc<T>(s: seq<T>, key: T -> int)
  {
    forall i, j :: 0 <= i < j < |s| ==> key(s[i]) >= key(s[j])
  }

  function InsertDesc<T>(x: T, s: seq<T>, key: T -> int): (r: seq<T>)
    ensures |r| == |s| + 1
  {
    if s == [] || key(x) >= key(s[0]) then [x] + s else [s[0]] + InsertDesc(x, s[1..], key)
  }

  /**
   * `orderBy: { <key>: "desc" }`: a stable insertion sort on the key. The
   * store promises only some descending order among equal keys; this
   * model fixes one.
   */
  function SortDescBy<T>(s: seq<T>, key: T -> int): (r: seq<T>)
    ensures |r| == |s|
  {
    if s == [] then [] else InsertDesc(s[0], SortDescBy(s[1..], key), key)
  }

  lemma {:induction false} InsertDescElements<T>(x: T, s: seq<T>, key: T -> int)
    ensures multiset(InsertDesc(x, s, key)) == multiset(s) + multiset{x}
    ensures |InsertDesc(x, s, key)| == |s| + 1
  {
    if s != [] && key(x) < key(s[0]) {
      InsertDescElements(x, s[1..], key);
      assert s == [s[0]] + s[1..];
    }
  }

  lemma {:induction false} InsertDescSorted<T>(x: T, s: seq<T>, key: T -> int)
    requires SortedDesc(s, key)
    ensures SortedDesc(InsertDesc(x, s, key), key)
  {
    if s != [] && key(x) < key(s[0]) {
      var tail := s[1..];
      InsertDescSorted(x, tail, key);
      InsertDescElements(x, tail, key);
      var r := InsertDesc(x, tail, key);
      forall j | 0 <= j < |r| ensures key(s[0]) >= key(r[j]) {
        assert r[j] in multiset(r);
        if r[j] != x {
          assert r[j] in multiset(tail);
          var k :| 0 <= k < |tail| && tail[k] == r[j];
          assert s[k + 1] == r[j];
        }
      }
      assert InsertDesc(x, s, key) == [s[0]] + r;
    }
  }

  /** The sort is descending and a permutation of its input. */
  lemma {:induction false} SortDescByCorrect<T>(s: seq<T>, key: T -> int)
    ensures SortedDesc(SortDescBy(s, key), key)
    ensures multiset(SortDescBy(s, key)) == multiset(s)
    ensures |SortDescBy(s, key)| == |s|
  {
    if s != [] {
      SortDescByCorrect(s[1..], key);
      InsertDescSorted(s[0], SortDescBy(s[1..], key), key);
      InsertDescElements(s[0], SortDescBy(s[1..], key), key);
      assert s == [s[0]] + s[1..];
    }
  }

  /** Elements with the same key are equal, so no two orders of them can differ. */
  predicate TiesEqual<T(==)>(s: seq<T>, key: T -> int)
  {
    forall i, j :: 0 <= i < |s| && 0 <= j < |s| && key(s[i]) == key(s[j]) ==> s[i] == s[j]
  }

  /**
   * Without ties between different elements a descending order is unique:
   * any two descending permutations of the same elements are equal.
   */
  lemma {:induction false} SortedUnique<T>(s1: seq<T>, s2: seq<T>, key: T -> int)
    requires SortedDesc(s1, key) && SortedDesc(s2, key)
    requires multiset(s1) == multiset(s2)
    requires TiesEqual(s1, key)
    ensures s1 == s2
  {
    if s1 != [] {
      SortedHeads(s1, s2, key);
      TailsSameElements(s1, s2);
      TiesEqualTail(s1, key);
      SortedUnique(s1[1..], s2[1..], key);
      assert s1 == [s1[0]] + s1[1..] && s2 == [s2[0]] + s2[1..];
    }
  }

  /** Two descending permutations without ties start with the same element. */
  lemma SortedHeads<T>(s1: seq<T>, s2: seq<T>, key: T -> int)
    requires SortedDesc(s1, key) && SortedDesc(s2, key)
    requires multiset(s1) == multiset(s2) && TiesEqual(s1, key) && s1 != []
    ensures s2 != [] && s1[0] == s2[0]
  {
    assert s1[0] in multiset(s2);
    var k :| 0 <= k < |s2| && s2[k] == s1[0];
    assert s2[0] in multiset(s1);
    var m :| 0 <= m < |s1| && s1[m] == s2[0];
    assert key(s1[0]) >= key(s1[m]);
    assert key(s2[0]) >= key(s2[k]);
  }

  lemma TailsSameElements<T>(s1: seq<T>, s2: seq<T>)
    requires multiset(s1) == multiset(s2) && s1 != [] && s2 != [] && s1[0] == s2[0]
    ensures multiset(s1[1..]) == multiset(s2[1..])
  {
    assert s1 == [s1[0]] + s1[1..] && s2 == [s2[0]] + s2[1..];
    assert multiset(s1[1..]) == multiset(s1) - multiset{s1[0]};
    assert multiset(s2[1..]) == multiset(s2) - multiset{s2[0]};
  }

  lemma TiesEqualTail<T>(s: seq<T>, key: T -> int)
    requires TiesEqual(s, key) && s != []
    ensures TiesEqual(s[1..], key)
  {
    forall i, j | 0 <= i < |s[1..]| && 0 <= j < |s[1..]| && key(s[1..][i]) == key(s[1..][j])
      ensures s[1..][i] == s[1..][j]
    {
      assert s[1..][i] == s[i + 1] && s[1..][j] == s[j + 1];
    }
  }

  /** Reordering keeps `TiesEqual`. */
  lemma TiesEqualPermutation<T>(s1: seq<T>, s2: seq<T>, key: T -> int)
    requires multiset(s1) == multiset(s2) && TiesEqual(s1, key)
    ensures TiesEqual(s2, key)
  {
    forall i, j | 0 <= i < |s2| && 0 <= j < |s2| && key(s2[i]) == key(s2[j]) ensures s2[i] == s2[j] {
      assert s2[i] in multiset(s1) && s2[j] in multiset(s1);
      var a :| 0 <= a < |s1| && s1[a] == s2[i];
      var b :| 0 <= b < |s1| && s1[b] == s2[j];
    }
  }

  /** Every slice of a descending sequence is descending. */
  lemma SliceSorted<T>(s: seq<T>, lo: nat, hi: nat, key: T -> int)
    requires SortedDesc(s, key) && lo <= hi <= |s|
    ensures SortedDesc(s[lo..hi], key)
  {
    var w := s[lo..hi];
    forall i, j | 0 <= i < j < |w| ensures key(w[i]) >= key(w[j]) {
      assert w[i] == s[lo + i] && w[j] == s[lo + j];
    }
  }

  function Min(a: int, b: int): int { if a <= b then a else b }

  function Max(a: int, b: int): int { if a >= b then a else b }

  /**
   * Prisma's `skip`/`take` on an ordered result: `take >= 0` keeps up to
   * `take` rows after the first `skip`; a negative `take` keeps up to
   * `-take` rows before the last `skip`.
   */
  function Window<T>(s: seq<T>, skip: nat, take: int): (r: seq<T>)
    ensures |r| <= if take >= 0 then take else -take
    ensures take >= 0 && skip <= |s| ==> r == s[skip..Min(skip + take, |s|)]
    ensures take >= 0 && skip >= |s| ==> r == []
    ensures take < 0 ==> r == s[Max(|s| - skip + take, 0)..Max(|s| - skip, 0)]
    ensures multiset(r) <= multiset(s)
  {
    if take >= 0 then
      var lo := Min(skip, |s|);
      var hi := Min(skip + take, |s|);
      assert s == s[..lo] + s[lo..hi] + s[hi..];
      s[lo..hi]
    else
      var hi := Max(|s| - skip, 0);
      var lo := Max(hi + take, 0);
      assert s == s[..lo] + s[lo..hi] + s[hi..];
      s[lo..hi]
  }

  /** Two adjacent windows of the same size make one window twice as long. */
  lemma WindowsTile<T>(s: seq<T>, lo: nat, take: nat)
    requires lo <= |s|
    ensures Window(s, lo, take) + Window(s, lo + take, take) == s[lo..Min(lo + 2 * take, |s|)]
  {
    var mid := Min(lo + take, |s|);
    var hi := Min(lo + 2 * take, |s|);
    if lo + take <= |s| {
      assert s[lo..mid] + s[mid..hi] == s[lo..hi];
    } else {
      assert mid == hi;
    }
  }

  /** A window of a descending sequence is descending. */
  lemma WindowSorted<T>(s: seq<T>, skip: nat, take: int, key: T -> int)
    requires SortedDesc(s, key)
    ensures SortedDesc(Window(s, skip, take), key)
  {
    if take >= 0 {
      SliceSorted(s, Min(skip, |s|), Min(skip + take, |s|), key);
    } else {
      SliceSorted(s, Max(Max(|s| - skip, 0) + take, 0), Max(|s| - skip, 0), key);
    }
  }

  /** Position of the first `c` in `s`. */
  function FirstIndex(s: string, c: char): (i: nat)
    requires c in s
    ensures i < |s| && s[i] == c && c !in s[..i]
  {
    if s[0] == c then 0
    else
      var j := FirstIndex(s[1..], c);
      assert s[1..][..j] == s[1..j + 1];
      1 + j
  }

  /** `s.split(sep)` for a one-character separator: never empty, no part contains `sep`. */
  function Split(s: string, sep: char): (parts: seq<string>)
    ensures |parts| >= 1
    ensures forall k :: 0 <= k < |parts| ==> sep !in parts[k]
    decreases |s|
  {
    if sep !in s then [s]
    else
      var i := FirstIndex(s, sep);
      [s[..i]] + Split(s[i + 1..], sep)
  }

  /** Without the separator there is a single part. */
  lemma SplitWithoutSeparator(s: string, sep: char)
    ensures sep !in s ==> Split(s, sep) == [s]
  {
  }

  /** `parts.join(sep)`. */
  function Join(parts: seq<string>, sep: char): string
  {
    if parts == [] then ""
    else if |parts| == 1 then parts[0]
    else parts[0] + [sep] + Join(parts[1..], sep)
  }

  /** Joining what split produced gives back the string. */
  lemma {:induction false} JoinSplit(s: string, sep: char)
    ensures Join(Split(s, sep), sep) == s
    decreases |s|
  {
    if sep in s {
      var i := FirstIndex(s, sep);
      var rest := Split(s[i + 1..], sep);
      JoinSplit(s[i + 1..], sep);
      assert Split(s, sep) == [s[..i]] + rest;
      assert ([s[..i]] + rest)[1..] == rest;
      assert s == s[..i] + [sep] + s[i + 1..];
    }
  }

  /** Splitting a join of separator-free parts gives back exactly those parts. */
  lemma {:induction false} SplitJoin(parts: seq<string>, sep: char)
    requires |parts| >= 1
    requires forall k :: 0 <= k < |parts| ==> sep !in parts[k]
    ensures Split(Join(parts, sep), sep) == parts
  {
    if |parts| > 1 {
      var tail := Join(parts[1..], sep);
      assert Join(parts, sep) == parts[0] + [sep] + tail;
      SplitAtFirst(parts[0], tail, sep);
      SplitJoin(parts[1..], sep);
      assert [parts[0]] + parts[1..] == parts;
    }
  }

  /** The first `sep` of `s` is at `n` when `s[..n]` holds none and `s[n]` is one. */
  lemma {:induction false} FirstIndexAt(s: string, sep: char, n: nat)
    requires n < |s| && s[n] == sep && sep !in s[..n]
    ensures FirstIndex(s, sep) == n
  {
    if n > 0 {
      assert s[0] == s[..n][0];
      assert s[1..][..n - 1] == s[..n][1..];
      FirstIndexAt(s[1..], sep, n - 1);
    }
  }

  lemma {:induction false} JoinAppend(a: seq<string>, b: seq<string>, sep: char)
    requires |a| >= 1 && |b| >= 1
    ensures Join(a + b, sep) == Join(a, sep) + [sep] + Join(b, sep)
  {
    if |a| == 1 {
      assert (a + b)[0] == a[0];
      assert (a + b)[1..] == b;
    } else {
      assert (a + b)[0] == a[0];
      assert (a + b)[1..] == a[1..] + b;
      JoinAppend(a[1..], b, sep);
    }
  }

  /** Splitting `a + sep + b` splits `a` and `b` independently. */
  lemma SplitAppend(a: string, b: string, sep: char)
    ensures Split(a + [sep] + b, sep) == Split(a, sep) + Split(b, sep)
  {
    var pa, pb := Split(a, sep), Split(b, sep);
    JoinSplit(a, sep);
    JoinSplit(b, sep);
    JoinAppend(pa, pb, sep);
    assert Join(pa + pb, sep) == a + [sep] + b;
    PartsWithoutSeparator(pa, pb, sep);
    SplitJoin(pa + pb, sep);
  }

  lemma PartsWithoutSeparator(pa: seq<string>, pb: seq<string>, sep: char)
    requires forall k :: 0 <= k < |pa| ==> sep !in pa[k]
    requires forall k :: 0 <= k < |pb| ==> sep !in pb[k]
    ensures forall k :: 0 <= k < |pa + pb| ==> sep !in (pa + pb)[k]
  {
    forall k | 0 <= k < |pa + pb| ensures sep !in (pa + pb)[k] {
      if k < |pa| { assert (pa + pb)[k] == pa[k]; } else { assert (pa + pb)[k] == pb[k - |pa|]; }
    }
  }

  /** The first part of a split ends at the first separator. */
  lemma SplitAtFirst(a: string, b: string, sep: char)
    requires sep !in a
    ensures Split(a + [sep] + b, sep) == [a] + Split(b, sep)
  {
    var s := a + [sep] + b;
    assert s[|a|] == sep;
    FirstIndexAt(s, sep, |a|);
    assert s[..|a|] == a;
    assert s[|a| + 1..] == b;
  }

  /** The characters JavaScript's `\s` and `String.prototype.trim` treat as white space. */
  predicate IsWhitespace(c: char)
  {
    var n := c as int;
    || 0x09 <= n <= 0x0D || n == 0x20 || n == 0xA0 || n == 0x1680
    || 0x2000 <= n <= 0x200A || n == 0x2028 || n == 0x2029 || n == 0x202F
    || n == 0x205F || n == 0x3000 || n == 0xFEFF
  }

  function TrimStart(s: string): string
  {
    if |s| > 0 && IsWhitespace(s[0]) then TrimStart(s[1..]) else s
  }

  function TrimEnd(s: string): string
  {
    if |s| > 0 && IsWhitespace(s[|s| - 1]) then TrimEnd(s[..|s| - 1]) else s
  }

  /** `s.trim()`. */
  function Trim(s: string): string
  {
    TrimEnd(TrimStart(s))
  }

  lemma {:induction false} TrimStartEmpty(s: string)
    ensures TrimStart(s) == [] <==> forall i :: 0 <= i < |s| ==> IsWhitespace(s[i])
  {
    if |s| > 0 && IsWhitespace(s[0]) {
      TrimStartEmpty(s[1..]);
      assert forall i :: 1 <= i < |s| ==> s[i] == s[1..][i - 1];
    }
  }

  lemma {:induction false} TrimEndEmpty(s: string)
    ensures TrimEnd(s) == [] <==> forall i :: 0 <= i < |s| ==> IsWhitespace(s[i])
  {
    if |s| > 0 && IsWhitespace(s[|s| - 1]) {
      TrimEndEmpty(s[..|s| - 1]);
      assert forall i :: 0 <= i < |s| - 1 ==> s[i] == s[..|s| - 1][i];
    }
  }

  lemma {:induction false} TrimStartKeepsNonWhitespace(s: string)
    ensures (exists i :: 0 <= i < |s| && !IsWhitespace(s[i])) ==> TrimStart(s) != []
  {
    TrimStartEmpty(s);
  }

  /** `s.trim() === ""` exactly when every character of `s` is white space. */
  lemma TrimEmptyIff(s: string)
    ensures Trim(s) == [] <==> forall i :: 0 <= i < |s| ==> IsWhitespace(s[i])
  {
    TrimStartEmpty(s);
    var t := TrimStart(s);
    TrimEndEmpty(t);
    if TrimEnd(t) == [] && t != [] {
      assert !IsWhitespace(t[0]) by { TrimStartFirst(s); }
      assert false;
    }
  }

  lemma {:induction false} TrimStartFirst(s: string)
    requires TrimStart(s) != []
    ensures !IsWhitespace(TrimStart(s)[0])
  {
    if |s| > 0 && IsWhitespace(s[0]) { TrimStartFirst(s[1..]); }
  }

  /** JavaScript `length`: UTF-16 code units, two for a character outside the Basic Multilingual Plane. */
  function Utf16Length(s: string): nat
  {
    if s == [] then 0 else (if s[0] as int > 0xFFFF then 2 else 1) + Utf16Length(s[1..])
  }

  lemma {:induction false} Utf16LengthBounds(s: string)
    ensures |s| <= Utf16Length(s) <= 2 * |s|
  {
    if s != [] { Utf16LengthBounds(s[1..]); }
  }

  function DigitChar(d: nat): (c: char)
    requires d < 10
    ensures '0' <= c <= '9' && c as int - '0' as int == d
  {
    ('0' as int + d) as char
  }

  /** `n.toString()` for a non-negative integer: decimal digits, no leading zero. */
  function NatToDecimal(n: nat): (s: string)
    ensures |s| >= 1 && forall i :: 0 <= i < |s| ==> '0' <= s[i] <= '9'
  {
    if n < 10 then [DigitChar(n)] else NatToDecimal(n / 10) + [DigitChar(n % 10)]
  }

  /** Number of decimal digits `n.toString()` has. */
  lemma {:induction false} NatToDecimalLength(n: nat, k: nat)
    requires k >= 1
    ensures Pow10(k - 1) <= n < Pow10(k) ==> |NatToDecimal(n)| == k
  {
    if Pow10(k - 1) <= n < Pow10(k) && n >= 10 {
      assert k >= 2;
      assert Pow10(k - 2) <= n / 10 < Pow10(k - 1);
      NatToDecimalLength(n / 10, k - 1);
    }
  }

  /** The number a string of decimal digits denotes. */
  function DecimalValue(s: string): nat
    requires forall i :: 0 <= i < |s| ==> '0' <= s[i] <= '9'
  {
    if s == [] then 0 else DecimalValue(s[..|s| - 1]) * 10 + (s[|s| - 1] as int - '0' as int)
  }

  /** `n.toString()` denotes `n`. */
  lemma {:induction false} DecimalValueOfNatToDecimal(n: nat)
    ensures DecimalValue(NatToDecimal(n)) == n
  {
    if n >= 10 {
      var s := NatToDecimal(n);
      assert s[..|s| - 1] == NatToDecimal(n / 10);
      DecimalValueOfNatToDecimal(n / 10);
    }
  }

  function Pow10(k: nat): (p: nat)
    ensures p >= 1
  {
    if k == 0 then 1 else 10 * Pow10(k - 1)
  }

  /** ASCII `toUpperCase` of one character. */
  function UpperAscii(c: char): char
  {
    if 'a' <= c <= 'z' then (c as int - 32) as char else c
  }

  /** `s.toUpperCase()` restricted to the ASCII letters. */
  function ToUpperAscii(s: string): (r: string)
    ensures |r| == |s| && forall i :: 0 <= i < |s| ==> r[i] == UpperAscii(s[i])
  {
    if s == [] then [] else [UpperAscii(s[0])] + ToUpperAscii(s[1..])
  }
}
