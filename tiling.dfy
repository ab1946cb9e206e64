/** Deterministic tiling: `get_strings_of_length_from_char_array` cuts or
    repeats a character table into strings of one fixed length, and
    `get_i18n_string` uses it to give a whole table as one string.

    `Tiled` is the reference definition: for a table of n >= 1 characters and a
    length L >= 1 it is the ceil(n / L) strings whose character i in string j is
    the table's character (j * L + i) mod n, i.e. consecutive L-blocks of the
    table read cyclically. The method follows the Ruby branches and loops and is
    proved to return exactly that. */
module Tiling {
  import opened Common
  import opened CharTables

  /** ceil(n / len): how many len-sized strings cover n characters. */
  function ChunkCount(n: nat, len: nat): nat
    requires len >= 1
  {
    (n + len - 1) / len
  }

  /** `string_length ||= array.length` */
  function LengthOrDefault(table: seq<char>, stringLength: Option<int>): int
  {
    if stringLength.Some? then stringLength.value else |table|
  }

  /** The strings the Ruby tiling produces, or the failure to produce any:
      it returns exactly when the table has the requested length or both the
      table and the length are non-empty, and then every string has the
      requested length and there is at least one. */
  function Tiled(table: seq<char>, len: int): (r: Result<seq<string>>)
    ensures r.Ok? <==> (|table| >= 1 && len >= 1) || |table| == len
    ensures r.Err? ==> r.error == LoopDoesNotTerminate
    ensures r.Ok? ==> |r.value| >= 1
    ensures r.Ok? ==> forall k :: 0 <= k < |r.value| ==> |r.value[k]| == len
  {
    if |table| >= 1 && len >= 1 then
      var n := |table|;
      CeilDivBounds(n, len);
      Ok(seq(ChunkCount(n, len), j => seq(len, i => table[(j * len + i) % n])))
    else if |table| == len then
      Ok([table])
    else
      Err(LoopDoesNotTerminate)
  }

  /** A table tiled at its own length is one string: the table itself. */
  lemma TiledWhole(table: seq<char>)
    ensures Tiled(table, |table|) == Ok([table])
  {
    var n := |table|;
    if n >= 1 {
      CeilDivUnique(n, n, 1);
      var v := Tiled(table, n).value;
      assert |v| == 1;
      forall i | 0 <= i < n
        ensures v[0][i] == table[i]
      {
        assert 0 * n + i == i;
        ModSmall(i, n);
      }
      assert v[0] == table;
      assert v == [table];
    }
  }

  /** A table shorter than the length gives one string: the first len
      characters of the table repeated reps = ceil(len / n) times. */
  lemma TiledShorter(table: seq<char>, len: int, reps: nat)
    requires 1 <= |table| < len
    requires (reps - 1) * |table| < len <= reps * |table|
    ensures reps == ChunkCount(len, |table|)
    ensures |Repeat(table, reps)| >= len
    ensures Tiled(table, len) == Ok([Repeat(table, reps)[..len]])
  {
    var n := |table|;
    CeilDivUnique(len, n, reps);
    CeilDivUnique(n, len, 1);
    RepeatLength(table, reps);
    var v := Tiled(table, len).value;
    assert |v| == 1;
    forall i | 0 <= i < len
      ensures v[0][i] == Repeat(table, reps)[i]
    {
      assert 0 * len + i == i;
      RepeatAt(table, reps, i);
    }
    assert v[0] == Repeat(table, reps)[..len];
    assert v == [Repeat(table, reps)[..len]];
  }

  /** A table longer than the length gives k + 1 = ceil(n / len) strings: k
      consecutive full blocks of the table, then the remaining n - k*len
      characters padded with the first characters of the table. Joined, they
      are the table followed by that padding. */
  lemma TiledLonger(table: seq<char>, len: int, k: nat)
    requires |table| > len >= 1
    requires k * len < |table| <= (k + 1) * len
    ensures Tiled(table, len).Ok?
    ensures |Tiled(table, len).value| == ChunkCount(|table|, len) == k + 1
    ensures forall j :: 0 <= j < k ==>
      j * len + len <= |table| && Tiled(table, len).value[j] == table[j * len..j * len + len]
    ensures Tiled(table, len).value[k] == table[k * len..] + table[..(k + 1) * len - |table|]
    ensures Concat(Tiled(table, len).value) == table + table[..(k + 1) * len - |table|]
  {
    var n := |table|;
    CeilDivUnique(n, len, k + 1);
    var v := Tiled(table, len).value;
    TiledFullBlocks(table, len, k);
    TiledLastBlock(table, len, k);
    ConcatOfBlocks(table, len, v, k);
    ConcatAppend(v[..k], v[k]);
    assert v == v[..k] + [v[k]];
  }

  /** The strings before the last are consecutive blocks of the table. */
  lemma TiledFullBlocks(table: seq<char>, len: int, k: nat)
    requires |table| > len >= 1
    requires k * len < |table| <= (k + 1) * len
    requires ChunkCount(|table|, len) == k + 1
    ensures Tiled(table, len).Ok? && |Tiled(table, len).value| == k + 1
    ensures forall j :: 0 <= j < k ==>
      j * len + len <= |table| && Tiled(table, len).value[j] == table[j * len..j * len + len]
  {
    var n := |table|;
    var v := Tiled(table, len).value;
    forall j | 0 <= j < k
      ensures j * len + len <= n && v[j] == table[j * len..j * len + len]
    {
      MulMonotone(j + 1, k, len);
      assert (j + 1) * len == j * len + len;
      forall i | 0 <= i < len
        ensures v[j][i] == table[j * len + i]
      {
        ModSmall(j * len + i, n);
      }
    }
  }

  /** The last string is the rest of the table padded from its start. */
  lemma TiledLastBlock(table: seq<char>, len: int, k: nat)
    requires |table| > len >= 1
    requires k * len < |table| <= (k + 1) * len
    requires ChunkCount(|table|, len) == k + 1
    ensures Tiled(table, len).Ok? && |Tiled(table, len).value| == k + 1
    ensures Tiled(table, len).value[k] == table[k * len..] + table[..(k + 1) * len - |table|]
  {
    var n := |table|;
    var v := Tiled(table, len).value;
    var rem := n - k * len;
    assert (k + 1) * len == k * len + len;
    forall i | 0 <= i < len
      ensures v[k][i] == (table[k * len..] + table[..len - rem])[i]
    {
      if i < rem {
        ModSmall(k * len + i, n);
      } else {
        ModWrap(k * len + i, n);
      }
    }
  }

  /** The first m full blocks joined are the table's first m * len characters. */
  lemma {:induction false} ConcatOfBlocks(table: seq<char>, len: int, v: seq<string>, m: nat)
    requires len >= 1 && m <= |v|
    requires forall j :: 0 <= j < m ==>
      j * len + len <= |table| && v[j] == table[j * len..j * len + len]
    ensures m * len <= |table| || m == 0
    ensures Concat(v[..m]) == table[..m * len]
  {
    if m > 0 {
      ConcatOfBlocks(table, len, v, m - 1);
      ConcatAppend(v[..m - 1], v[m - 1]);
      assert v[..m] == v[..m - 1] + [v[m - 1]];
      assert (m - 1) * len + len == m * len;
      assert table[..m * len] == table[..(m - 1) * len] + table[(m - 1) * len..m * len];
    }
  }

  /** Character i of string j of a tiling, read off the reference definition. */
  lemma TiledAt(table: seq<char>, len: int, j: int, i: int)
    requires |table| >= 1 && len >= 1
    requires 0 <= j < ChunkCount(|table|, len) && 0 <= i < len
    ensures Tiled(table, len).Ok? && |Tiled(table, len).value| == ChunkCount(|table|, len)
    ensures Tiled(table, len).value[j][i] == table[(j * len + i) % |table|]
  {
  }

  /** Re-tiling the joined result at the same length gives the same strings. */
  lemma TiledRetile(table: seq<char>, len: int)
    requires Tiled(table, len).Ok?
    ensures Tiled(Concat(Tiled(table, len).value), len) == Tiled(table, len)
  {
    var v := Tiled(table, len).value;
    if len == 0 {
      assert |table| == 0 && v == [table];
      assert Concat(v) == table + Concat(v[1..]);
    } else {
      var u := Concat(v);
      ConcatUniformLength(v, len);
      CeilDivUnique(|v| * len, len, |v|);
      var w := Tiled(u, len).value;
      assert |w| == |v|;
      forall j | 0 <= j < |v|
        ensures w[j] == v[j]
      {
        forall i | 0 <= i < len
          ensures w[j][i] == v[j][i]
        {
          ConcatUniformAt(v, len, j, i);
          ModSmall(j * len + i, |u|);
          TiledAt(u, len, j, i);
        }
      }
      assert w == v;
    }
  }

  /** `get_strings_of_length_from_char_array(array, string_length)`: the
      three branches of the Ruby code, with its growing and slicing loops. */
  method GetStringsOfLength(table: seq<char>, stringLength: Option<int>) returns (r: Result<seq<string>>)
    ensures r == Tiled(table, LengthOrDefault(table, stringLength))
  {
    var len := LengthOrDefault(table, stringLength);
    var n := |table|;
    if n == len {
      TiledWhole(table);
      r := Ok([table]);
    } else if n == 0 || len < 1 {
      // the growing loop never grows an empty string, the slicing loop
      // never shortens a string when the slice is empty
      r := Err(LoopDoesNotTerminate);
    } else if n < len {
      var myString := table;
      ghost var reps: nat := 1;
      while |myString| < len
        invariant reps >= 1 && myString == Repeat(table, reps)
        invariant |myString| == reps * n
        invariant (reps - 1) * n < len
        decreases len - |myString|
      {
        myString := myString + table;
        reps := reps + 1;
      }
      TiledShorter(table, len, reps);
      r := Ok([myString[..len]]);
    } else {
      var strings: seq<string> := [];
      var myString := table;
      while |myString| > len
        invariant |strings| * len + |myString| == n
        invariant myString == table[|strings| * len..] && |myString| >= 1
        invariant forall j :: 0 <= j < |strings| ==>
          j * len + len <= n && strings[j] == table[j * len..j * len + len]
        decreases |myString|
      {
        assert (|strings| + 1) * len == |strings| * len + len;
        strings := strings + [myString[..len]];
        myString := myString[len..];
      }
      var k := |strings|;
      assert (k + 1) * len == k * len + len;
      strings := strings + [myString + table[..len - |myString|]];
      TiledLonger(table, len, k);
      ghost var v := Tiled(table, len).value;
      forall j | 0 <= j < |strings|
        ensures strings[j] == v[j]
      {
      }
      assert strings == v;
      r := Ok(strings);
    }
  }

  /** `get_i18n_string(character_type)`: the whole table of a category as one
      string, in table order. */
  function GetI18nString(c: Category): (r: string)
    ensures r == Table(c)
  {
    var table := Table(c);
    TiledWhole(table);
    Tiled(table, LengthOrDefault(table, None)).value[0]
  }
}
