/** Shared vocabulary of the string generator: the errors it raises and the
    sequence operations (repeating, flattening) that the Ruby code performs with
    its string-growing `while` loop, `flatten` and `join`. */
module Common {

  /** The ways a call of the generator can end without a value. */
  datatype Failure =
    | SentenceTooShort          // `raise('length of sentence must be at least 2')`
    | BlockArityNotOne          // `raise("test_i18n_strings requires a block with arity of 1")`
    | LoopDoesNotTerminate      // the tiling loops never exit for this table and length
    | NegativeSampleSize        // `Array#sample` raises ArgumentError for a negative count
    | ArrayNotCoercibleToInteger // `Integer + Array` raises TypeError

  datatype Result<T> = Ok(value: T) | Err(error: Failure)

  /** A Ruby argument that may be `nil`. */
  datatype Option<T> = None | Some(value: T)

  /** `s` written `m` times one after the other. */
  function Repeat<T>(s: seq<T>, m: nat): (r: seq<T>)
  {
    if m == 0 then [] else Repeat(s, m - 1) + s
  }

  /** Joining a list of strings (or flattening a list of lists). */
  function Concat<T>(ss: seq<seq<T>>): (r: seq<T>)
  {
    if ss == [] then [] else ss[0] + Concat(ss[1..])
  }

  /** x mod n for x below 2n: at most one wrap. */
  lemma ModWrap(x: int, n: int)
    requires 0 < n <= x < 2 * n
    ensures x % n == x - n
  {
  }

  lemma ModSmall(x: int, n: int)
    requires 0 <= x < n
    ensures x % n == x
  {
  }

  /** Any decomposition x == q * n + t with 0 <= t < n gives the remainder. */
  lemma ModUnique(x: int, n: int, q: int, t: int)
    requires 0 <= t < n && x == q * n + t
    ensures x % n == t
  {
    var q', r := x / n, x % n;
    assert x == q' * n + r && 0 <= r < n;
    assert (q' + 1) * n == q' * n + n && (q + 1) * n == q * n + n;
    if q' < q {
      MulMonotone(q' + 1, q, n);
      assert false;
    } else if q < q' {
      MulMonotone(q + 1, q', n);
      assert false;
    }
  }

  lemma ModAfterMultiple(m: nat, n: int, t: int)
    requires 0 <= t < n
    ensures (m * n + t) % n == t
  {
    ModUnique(m * n + t, n, m, t);
  }

  /** The ceiling of n / d pinned by its defining bounds. */
  lemma CeilDivBounds(n: int, d: int)
    requires n >= 1 && d >= 1
    ensures (n + d - 1) / d >= 1
    ensures ((n + d - 1) / d - 1) * d < n <= ((n + d - 1) / d) * d
  {
    var q := (n + d - 1) / d;
    var r := (n + d - 1) % d;
    assert n + d - 1 == q * d + r && 0 <= r < d;
    assert (q - 1) * d == q * d - d;
  }

  lemma CeilDivUnique(n: int, d: int, k: int)
    requires n >= 1 && d >= 1
    requires (k - 1) * d < n <= k * d
    ensures (n + d - 1) / d == k
  {
    CeilDivBounds(n, d);
    var q := (n + d - 1) / d;
    if q < k {
      MulMonotone(q, k - 1, d);
      assert false;
    } else if q > k {
      MulMonotone(k, q - 1, d);
      assert false;
    }
  }

  lemma MulMonotone(a: int, b: int, d: int)
    requires a <= b && d >= 0
    ensures a * d <= b * d
  {
    assert b * d - a * d == (b - a) * d;
  }

  lemma {:induction false} RepeatLength<T>(s: seq<T>, m: nat)
    ensures |Repeat(s, m)| == m * |s|
  {
    if m > 0 {
      RepeatLength(s, m - 1);
    }
  }

  /** Position i of a repetition holds the table's character at i mod |s|. */
  lemma {:induction false} RepeatAt<T>(s: seq<T>, m: nat, i: int)
    requires 0 <= i < m * |s|
    ensures |Repeat(s, m)| == m * |s|
    ensures Repeat(s, m)[i] == s[i % |s|]
  {
    RepeatLength(s, m);
    RepeatLength(s, m - 1);
    if i < (m - 1) * |s| {
      RepeatAt(s, m - 1, i);
    } else {
      var t := i - (m - 1) * |s|;
      ModAfterMultiple(m - 1, |s|, t);
    }
  }

  lemma {:induction false} ConcatAppend<T>(ss: seq<seq<T>>, s: seq<T>)
    ensures Concat(ss + [s]) == Concat(ss) + s
  {
    if ss == [] {
      assert ss + [s] == [s];
    } else {
      assert (ss + [s])[1..] == ss[1..] + [s];
      ConcatAppend(ss[1..], s);
    }
  }

  /** Joining strings that all have length w gives a string of |ss| * w
      characters whose character j*w + i is character i of string j. */
  lemma {:induction false} ConcatUniformAt<T>(ss: seq<seq<T>>, w: nat, j: int, i: int)
    requires forall k :: 0 <= k < |ss| ==> |ss[k]| == w
    requires 0 <= j < |ss| && 0 <= i < w
    ensures |Concat(ss)| == |ss| * w
    ensures j * w + i < |ss| * w
    ensures Concat(ss)[j * w + i] == ss[j][i]
  {
    ConcatUniformLength(ss, w);
    MulMonotone(j + 1, |ss|, w);
    if j > 0 {
      ConcatUniformAt(ss[1..], w, j - 1, i);
      assert j * w + i == w + ((j - 1) * w + i);
    }
  }

  lemma {:induction false} ConcatUniformLength<T>(ss: seq<seq<T>>, w: nat)
    requires forall k :: 0 <= k < |ss| ==> |ss[k]| == w
    ensures |Concat(ss)| == |ss| * w
  {
    if ss != [] {
      ConcatUniformLength(ss[1..], w);
    }
  }

  /** Concatenation regrouped to the left. */
  lemma Regroup<T>(a: seq<T>, b: seq<T>, c: seq<T>)
    ensures a + (b + c) == a + b + c
  {
  }

  lemma RegroupFive<T>(a: seq<T>, b: seq<T>, c: seq<T>, d: seq<T>, e: seq<T>)
    ensures a + (b + (c + (d + e))) == a + b + c + d + e
  {
  }

  /** A non-empty sequence is its front followed by its last element. */
  lemma SplitLast<T>(s: seq<T>)
    requires s != []
    ensures s == s[..|s| - 1] + [s[|s| - 1]]
    ensures forall k :: 0 <= k < |s| - 1 ==> s[..|s| - 1][k] == s[k]
  {
  }
}
