/** Random sampling: `random_characters` and its thin wrappers.

    The Ruby code builds a pool of `length` copies of the flattened tables and
    takes `length` of its slots with `Array#sample`, which never takes a slot
    twice. The seeded generator is not modelled: its choice is the parameter
    `picks`, the slot indices in draw order, and `ValidDraw` is all that is
    assumed of them. So only the size of the result and where its characters
    come from are claimed, never which characters they are. */
module Sampling {
  import opened Common
  import opened CharTables

  /** `length.times.map { utf8_ranges.flatten }.flatten`: the tables joined,
      written out `length` times. */
  function Pool(tables: seq<seq<char>>, length: nat): (r: seq<char>)
    ensures |r| == length * |Concat(tables)|
    ensures forall x :: 0 <= x < |r| ==> r[x] in Concat(tables)
  {
    var all := Concat(tables);
    RepeatLength(all, length);
    assert forall x :: 0 <= x < length * |all| ==> Repeat(all, length)[x] in all by {
      forall x | 0 <= x < length * |all|
        ensures Repeat(all, length)[x] in all
      {
        RepeatAt(all, length, x);
      }
    }
    Repeat(all, length)
  }

  /** What `Array#sample(count)` delivers on a pool of `size` slots: as many
      slots as asked for (all of them if the pool is smaller), each inside
      the pool and none twice. */
  predicate ValidDraw(picks: seq<nat>, count: nat, size: nat)
  {
    && |picks| == (if count <= size then count else size)
    && (forall k :: 0 <= k < |picks| ==> picks[k] < size)
    && (forall k, l :: 0 <= k < l < |picks| ==> picks[k] != picks[l])
  }

  /** The characters at the drawn slots, in draw order. */
  function Sample(pool: seq<char>, picks: seq<nat>): (r: seq<char>)
    requires forall k :: 0 <= k < |picks| ==> picks[k] < |pool|
    ensures |r| == |picks|
  {
    seq(|picks|, k requires 0 <= k < |picks| => pool[picks[k]])
  }

  /** Drawing distinct slots never uses a pool character more often than the
      pool holds it. */
  lemma {:induction false} SampleWithinPool(pool: seq<char>, picks: seq<nat>)
    requires forall k :: 0 <= k < |picks| ==> picks[k] < |pool|
    requires forall k, l :: 0 <= k < l < |picks| ==> picks[k] != picks[l]
    ensures multiset(Sample(pool, picks)) <= multiset(pool)
  {
    if picks == [] {
      assert Sample(pool, picks) == [];
    } else {
      assert picks[0] < |pool|;
      var m := |pool| - 1;
      var front := pool[..m];
      assert pool == front + [pool[m]];
      if k0 :| 0 <= k0 < |picks| && picks[k0] == m {
        var rest := DropPick(picks, k0, m);
        SampleWithinPool(front, rest);
        SampleOnPrefix(pool, front, rest);
        SampleDropPick(pool, picks, k0);
      } else {
        SampleOnPrefix(pool, front, picks);
        SampleWithinPool(front, picks);
      }
    }
  }

  /** The draws without the one at position k0, which took the last slot m. */
  function DropPick(picks: seq<nat>, k0: int, m: nat): (rest: seq<nat>)
    requires 0 <= k0 < |picks| && picks[k0] == m
    requires forall k :: 0 <= k < |picks| ==> picks[k] <= m
    requires forall k, l :: 0 <= k < l < |picks| ==> picks[k] != picks[l]
    ensures rest == picks[..k0] + picks[k0 + 1..]
    ensures forall k :: 0 <= k < |rest| ==> rest[k] < m
    ensures forall k, l :: 0 <= k < l < |rest| ==> rest[k] != rest[l]
  {
    var rest := picks[..k0] + picks[k0 + 1..];
    assert forall k :: 0 <= k < |rest| ==> rest[k] == picks[if k < k0 then k else k + 1];
    rest
  }

  lemma SampleOnPrefix(pool: seq<char>, front: seq<char>, picks: seq<nat>)
    requires front <= pool
    requires forall k :: 0 <= k < |picks| ==> picks[k] < |front|
    ensures Sample(pool, picks) == Sample(front, picks)
  {
  }

  lemma SampleDropPick(pool: seq<char>, picks: seq<nat>, k0: int)
    requires forall k :: 0 <= k < |picks| ==> picks[k] < |pool|
    requires 0 <= k0 < |picks|
    ensures multiset(Sample(pool, picks)) ==
      multiset(Sample(pool, picks[..k0] + picks[k0 + 1..])) + multiset{pool[picks[k0]]}
  {
    var s := Sample(pool, picks);
    assert Sample(pool, picks[..k0] + picks[k0 + 1..]) == s[..k0] + s[k0 + 1..];
    assert s == s[..k0] + [s[k0]] + s[k0 + 1..];
  }

  /** `random_characters(utf8_ranges, length)`: `length` characters drawn
      without reuse of a slot from the inflated pool, or ArgumentError for a
      negative length. With non-empty tables the result has exactly `length`
      characters, and each comes from the tables. The multiset bound is stated
      for completeness only: the pool holds every table character `length`
      times, so it follows from the two clauses before it. That no slot is
      drawn twice is the general fact `SampleWithinPool`, over any pool. */
  function RandomCharacters(tables: seq<seq<char>>, length: int, picks: seq<nat>): (r: Result<string>)
    requires length >= 0 ==> ValidDraw(picks, length, length * |Concat(tables)|)
    ensures r.Err? <==> length < 0
    ensures r.Err? ==> r.error == NegativeSampleSize
    ensures r.Ok? ==> |r.value| == if |Concat(tables)| == 0 then 0 else length
    ensures r.Ok? ==> forall ch :: ch in r.value ==> ch in Concat(tables)
    ensures r.Ok? ==> multiset(r.value) <= multiset(Pool(tables, length))
  {
    if length < 0 then
      Err(NegativeSampleSize)
    else
      var pool := Pool(tables, length);
      assert |Concat(tables)| >= 1 ==> length <= length * |Concat(tables)| by {
        if |Concat(tables)| >= 1 {
          MulMonotone(1, |Concat(tables)|, length);
        }
      }
      SampleWithinPool(pool, picks);
      Ok(Sample(pool, picks))
  }

  const MultiLangTables: seq<seq<char>> := [ChineseChars, EnglishChars, GermanChars]
  const AlphaNumericTables: seq<seq<char>> := [EnglishChars, NumericChars]

  lemma FlattenedSizes()
    ensures Concat(MultiLangTables) == ChineseChars + EnglishChars + GermanChars
    ensures |Concat(MultiLangTables)| == 97
    ensures Concat(AlphaNumericTables) == EnglishChars + NumericChars
    ensures |Concat(AlphaNumericTables)| == 68
    ensures Concat([ChineseChars]) == ChineseChars && Concat([EnglishChars]) == EnglishChars
    ensures Concat([GermanChars]) == GermanChars
  {
    assert Concat([GermanChars]) == GermanChars + Concat([]);
    assert Concat([EnglishChars, GermanChars]) == EnglishChars + Concat([GermanChars]);
    assert Concat(MultiLangTables) == ChineseChars + Concat([EnglishChars, GermanChars]);
    assert Concat([NumericChars]) == NumericChars + Concat([]);
    assert Concat(AlphaNumericTables) == EnglishChars + Concat([NumericChars]);
    assert Concat([ChineseChars]) == ChineseChars + Concat([]);
    assert Concat([EnglishChars]) == EnglishChars + Concat([]);
  }

  /** `random_multi_lang`: Chinese, English and German characters. */
  function RandomMultiLang(length: int, picks: seq<nat>): (r: Result<string>)
    requires length >= 0 ==> ValidDraw(picks, length, length * 97)
    ensures r.Ok? <==> length >= 0
    ensures r.Ok? ==> |r.value| == length
    ensures r.Ok? ==> forall ch :: ch in r.value ==>
      ch in ChineseChars || ch in EnglishChars || ch in GermanChars
  {
    FlattenedSizes();
    RandomCharacters(MultiLangTables, length, picks)
  }

  /** `random_chinese_characters` */
  function RandomChineseCharacters(length: int, picks: seq<nat>): (r: Result<string>)
    requires length >= 0 ==> ValidDraw(picks, length, length * 33)
    ensures r.Ok? <==> length >= 0
    ensures r.Ok? ==> |r.value| == length && forall ch :: ch in r.value ==> ch in ChineseChars
  {
    FlattenedSizes();
    RandomCharacters([ChineseChars], length, picks)
  }

  /** `random_english` */
  function RandomEnglish(length: int, picks: seq<nat>): (r: Result<string>)
    requires length >= 0 ==> ValidDraw(picks, length, length * 58)
    ensures r.Ok? <==> length >= 0
    ensures r.Ok? ==> |r.value| == length && forall ch :: ch in r.value ==> ch in EnglishChars
  {
    FlattenedSizes();
    RandomCharacters([EnglishChars], length, picks)
  }

  /** `random_alpha_numeric`: English characters and digits. */
  function RandomAlphaNumeric(length: int, picks: seq<nat>): (r: Result<string>)
    requires length >= 0 ==> ValidDraw(picks, length, length * 68)
    ensures r.Ok? <==> length >= 0
    ensures r.Ok? ==> |r.value| == length
    ensures r.Ok? ==> forall ch :: ch in r.value ==> ch in EnglishChars || ch in NumericChars
  {
    FlattenedSizes();
    RandomCharacters(AlphaNumericTables, length, picks)
  }

  /** `random_german` */
  function RandomGerman(length: int, picks: seq<nat>): (r: Result<string>)
    requires length >= 0 ==> ValidDraw(picks, length, length * 6)
    ensures r.Ok? <==> length >= 0
    ensures r.Ok? ==> |r.value| == length && forall ch :: ch in r.value ==> ch in GermanChars
  {
    FlattenedSizes();
    RandomCharacters([GermanChars], length, picks)
  }
}
