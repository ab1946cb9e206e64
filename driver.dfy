/** The test driver `test_i18n_strings`: tile the Chinese, German, max-length,
    syntax and white-space tables at one length and hand every string, in that
    order, to the caller's block. Syntax and white space can be excluded.

    The block is modelled by its presence and arity only; what it does with a
    string is left to the caller, so the driver's observable behaviour is the
    sequence of strings it yields, returned here as a trace. A tiling that
    never terminates ends the whole call (`Err(LoopDoesNotTerminate)`). */
module Driver {
  import opened Common
  import opened CharTables
  import opened Tiling

  /** The `&block` argument: absent, or a block of the given arity. */
  datatype Block = NoBlock | Given(arity: int)

  /** The categories the driver tiles, in the order it yields them. */
  function DrivenClasses(exclude: seq<Category>): (r: seq<Category>)
    ensures |r| >= 3 && r[..3] == [Chinese, German, MaxLength]
    ensures Syntax in r <==> Syntax !in exclude
    ensures WhiteSpace in r <==> WhiteSpace !in exclude
    ensures forall k :: 3 <= k < |r| ==> r[k] == Syntax || r[k] == WhiteSpace
    ensures forall k, l :: 0 <= k < l < |r| ==> r[k] != r[l]
    ensures forall k, l :: 0 <= k < |r| && 0 <= l < |r| && r[k] == Syntax && r[l] == WhiteSpace ==> k < l
  {
    [Chinese, German, MaxLength]
      + (if Syntax in exclude then [] else [Syntax])
      + (if WhiteSpace in exclude then [] else [WhiteSpace])
  }

  /** The tiling of one category at the driver's length. */
  function TilingOf(c: Category, stringLength: Option<int>): Result<seq<string>>
  {
    Tiled(Table(c), LengthOrDefault(Table(c), stringLength))
  }

  /** One block of the driver after the ones before it: nothing more happens
      once a tiling has failed; otherwise the table is tiled and, if that
      terminates, its strings are yielded after the earlier ones. */
  function Emit(acc: Result<seq<string>>, c: Category, stringLength: Option<int>): Result<seq<string>>
  {
    if acc.Err? then acc
    else
      match TilingOf(c, stringLength)
      case Err(e) => Err(e)
      case Ok(strings) => Ok(acc.value + strings)
  }

  /** The driver's blocks for the categories `cs`, run in order. */
  function Yields(stringLength: Option<int>, cs: seq<Category>): Result<seq<string>>
  {
    if cs == [] then Ok([])
    else Emit(Yields(stringLength, cs[..|cs| - 1]), cs[|cs| - 1], stringLength)
  }

  /** What `test_i18n_strings(string_length, exclude, &block)` does: the
      arity check, then the blocks for the driven categories. */
  function ExpectedYields(stringLength: Option<int>, exclude: seq<Category>, block: Block): Result<seq<string>>
  {
    if block != Given(1) then Err(BlockArityNotOne)
    else Yields(stringLength, DrivenClasses(exclude))
  }

  /** The strings of every tiling in `cs` joined in order, independent of
      how the driver threads its failures. */
  function Batches(stringLength: Option<int>, cs: seq<Category>): seq<string>
  {
    if cs == [] then [] else Piece(cs[0], stringLength) + Batches(stringLength, cs[1..])
  }

  /** The strings of one tiling, none when it does not terminate. */
  function Piece(c: Category, stringLength: Option<int>): seq<string>
  {
    if TilingOf(c, stringLength).Ok? then TilingOf(c, stringLength).value else []
  }

  /** `get_strings_of_length_from_char_array(...).each { |string| yield string }` */
  method YieldEach(trace: seq<string>, strings: seq<string>) returns (out: seq<string>)
    ensures out == trace + strings
  {
    out := trace;
    for i := 0 to |strings|
      invariant out == trace + strings[..i]
    {
      out := out + [strings[i]];
    }
    assert strings[..|strings|] == strings;
  }

  /** One block of the driver: skipped after a failure, otherwise the tiling
      of the category's table followed by yielding each of its strings. */
  method YieldTiling(acc: Result<seq<string>>, c: Category, stringLength: Option<int>)
    returns (r: Result<seq<string>>)
    ensures r == Emit(acc, c, stringLength)
  {
    if acc.Err? {
      r := acc;
      return;
    }
    var strings := GetStringsOfLength(Table(c), stringLength);
    if strings.Err? {
      r := Err(strings.error);
    } else {
      var trace := YieldEach(acc.value, strings.value);
      r := Ok(trace);
    }
  }

  lemma YieldsSnoc(stringLength: Option<int>, cs: seq<Category>, c: Category)
    ensures Yields(stringLength, cs + [c]) == Emit(Yields(stringLength, cs), c, stringLength)
  {
    assert (cs + [c])[..|cs|] == cs;
  }

  /** `test_i18n_strings(string_length, exclude, &block)`: raise unless the
      block takes one argument, then run the Chinese, German and max-length
      blocks, the syntax block unless `:syntax` is excluded and the white-space
      block unless `:white_space` is excluded. */
  method TestI18nStrings(stringLength: Option<int>, exclude: seq<Category>, block: Block)
    returns (r: Result<seq<string>>)
    ensures r == ExpectedYields(stringLength, exclude, block)
  {
    if !(block.Given? && block.arity == 1) {
      r := Err(BlockArityNotOne);
      return;
    }
    ghost var done: seq<Category> := [];
    r := Ok([]);
    assert r == Yields(stringLength, done);
    r := YieldTiling(r, Chinese, stringLength);
    YieldsSnoc(stringLength, done, Chinese);
    done := done + [Chinese];
    assert r == Yields(stringLength, done);
    r := YieldTiling(r, German, stringLength);
    YieldsSnoc(stringLength, done, German);
    done := done + [German];
    assert r == Yields(stringLength, done);
    r := YieldTiling(r, MaxLength, stringLength);
    YieldsSnoc(stringLength, done, MaxLength);
    done := done + [MaxLength];
    assert r == Yields(stringLength, done);
    if Syntax !in exclude {
      r := YieldTiling(r, Syntax, stringLength);
      YieldsSnoc(stringLength, done, Syntax);
      done := done + [Syntax];
      assert r == Yields(stringLength, done);
    }
    assert done == [Chinese, German, MaxLength] + (if Syntax in exclude then [] else [Syntax]);
    if WhiteSpace !in exclude {
      r := YieldTiling(r, WhiteSpace, stringLength);
      YieldsSnoc(stringLength, done, WhiteSpace);
      done := done + [WhiteSpace];
      assert r == Yields(stringLength, done);
    }
    assert done == DrivenClasses(exclude);
  }

  /** The blocks succeed exactly when every tiling terminates, and then they
      yield the tilings' strings one category after the other. */
  lemma {:induction false} YieldsMeaning(stringLength: Option<int>, cs: seq<Category>)
    ensures Yields(stringLength, cs).Ok? <==> forall k :: 0 <= k < |cs| ==> TilingOf(cs[k], stringLength).Ok?
    ensures Yields(stringLength, cs).Ok? ==> Yields(stringLength, cs).value == Batches(stringLength, cs)
    ensures Yields(stringLength, cs).Err? ==> Yields(stringLength, cs).error == LoopDoesNotTerminate
    decreases |cs|
  {
    if cs != [] {
      var front, last := cs[..|cs| - 1], cs[|cs| - 1];
      YieldsMeaning(stringLength, front);
      BatchesSnoc(stringLength, front, last);
      EmitCases(Yields(stringLength, front), last, stringLength);
      SplitLast(cs);
    }
  }

  /** One block succeeds exactly when the earlier ones did and its tiling
      terminates; it appends that tiling's strings. */
  lemma EmitCases(acc: Result<seq<string>>, c: Category, stringLength: Option<int>)
    requires acc.Err? ==> acc.error == LoopDoesNotTerminate
    ensures Emit(acc, c, stringLength).Ok? <==> acc.Ok? && TilingOf(c, stringLength).Ok?
    ensures Emit(acc, c, stringLength).Ok? ==> Emit(acc, c, stringLength).value == acc.value + Piece(c, stringLength)
    ensures Emit(acc, c, stringLength).Err? ==> Emit(acc, c, stringLength).error == LoopDoesNotTerminate
  {
  }

  lemma {:induction false} BatchesSnoc(stringLength: Option<int>, cs: seq<Category>, c: Category)
    ensures Batches(stringLength, cs + [c]) == Batches(stringLength, cs) + Piece(c, stringLength)
    decreases |cs|
  {
    if cs == [] {
      assert [c][1..] == [];
    } else {
      assert (cs + [c])[1..] == cs[1..] + [c];
      BatchesSnoc(stringLength, cs[1..], c);
      Regroup(Piece(cs[0], stringLength), Batches(stringLength, cs[1..]), Piece(c, stringLength));
    }
  }

  /** The driver returns exactly when it is given a block of arity 1 and the
      length is nil or positive; a zero or negative length never ends. */
  lemma TestI18nStringsOutcome(stringLength: Option<int>, exclude: seq<Category>, block: Block)
    ensures ExpectedYields(stringLength, exclude, block).Ok? <==>
      block == Given(1) && (stringLength.None? || stringLength.value >= 1)
    ensures block != Given(1) ==> ExpectedYields(stringLength, exclude, block) == Err(BlockArityNotOne)
    ensures block == Given(1) && stringLength.Some? && stringLength.value < 1 ==>
      ExpectedYields(stringLength, exclude, block) == Err(LoopDoesNotTerminate)
  {
    if block == Given(1) {
      var cs := DrivenClasses(exclude);
      YieldsMeaning(stringLength, cs);
      if stringLength.None? || stringLength.value >= 1 {
        forall k | 0 <= k < |cs|
          ensures TilingOf(cs[k], stringLength).Ok?
        {
          TiledWhole(Table(cs[k]));
        }
      } else {
        TableSizes();
        assert cs[0] == Chinese;
        assert !TilingOf(cs[0], stringLength).Ok?;
      }
    }
  }

  /** Every string of a tiling is built from characters of its table. */
  lemma TiledFromTable(table: seq<char>, len: int)
    requires Tiled(table, len).Ok?
    ensures forall j, i :: 0 <= j < |Tiled(table, len).value| && 0 <= i < |Tiled(table, len).value[j]| ==>
      Tiled(table, len).value[j][i] in table
  {
    var v := Tiled(table, len).value;
    if |table| >= 1 && len >= 1 {
      forall j, i | 0 <= j < |v| && 0 <= i < |v[j]|
        ensures v[j][i] in table
      {
        TiledAt(table, len, j, i);
      }
    } else {
      assert v == [table];
    }
  }

  /** Every yielded string has the requested length when that length is
      positive, and its characters come from the driven categories. */
  lemma {:induction false} BatchesShape(stringLength: Option<int>, cs: seq<Category>)
    ensures stringLength.Some? && stringLength.value >= 1 ==>
      forall s :: s in Batches(stringLength, cs) ==> |s| == stringLength.value
    ensures forall s, ch :: s in Batches(stringLength, cs) && ch in s ==> exists k :: 0 <= k < |cs| && ch in Table(cs[k])
    decreases |cs|
  {
    if cs != [] {
      BatchesShape(stringLength, cs[1..]);
      var t := TilingOf(cs[0], stringLength);
      var head := Piece(cs[0], stringLength);
      if t.Ok? {
        TiledFromTable(Table(cs[0]), LengthOrDefault(Table(cs[0]), stringLength));
      }
      forall s, ch | s in Batches(stringLength, cs) && ch in s
        ensures exists k :: 0 <= k < |cs| && ch in Table(cs[k])
      {
        if s in head {
          var j :| 0 <= j < |head| && head[j] == s;
          var i :| 0 <= i < |s| && s[i] == ch;
          assert ch in Table(cs[0]);
        } else {
          assert s in Batches(stringLength, cs[1..]);
          var k :| 0 <= k < |cs[1..]| && ch in Table(cs[1..][k]);
          assert ch in Table(cs[k + 1]);
        }
      }
    }
  }

  /** With a positive length every yielded string has that length. */
  lemma YieldedLength(len: int, exclude: seq<Category>)
    requires len >= 1
    ensures ExpectedYields(Some(len), exclude, Given(1)).Ok?
    ensures forall s :: s in ExpectedYields(Some(len), exclude, Given(1)).value ==> |s| == len
  {
    TestI18nStringsOutcome(Some(len), exclude, Given(1));
    YieldsMeaning(Some(len), DrivenClasses(exclude));
    BatchesShape(Some(len), DrivenClasses(exclude));
  }

  /** Without a length every table is yielded whole, once, in driver order. */
  lemma {:induction false} WholeTables(cs: seq<Category>)
    ensures Batches(None, cs) == seq(|cs|, k requires 0 <= k < |cs| => Table(cs[k]))
    decreases |cs|
  {
    if cs != [] {
      WholeTables(cs[1..]);
      TiledWhole(Table(cs[0]));
    }
  }

  lemma YieldedWithoutLength(exclude: seq<Category>)
    ensures var cs := DrivenClasses(exclude);
      ExpectedYields(None, exclude, Given(1)) == Ok(seq(|cs|, k requires 0 <= k < |cs| => Table(cs[k])))
  {
    var cs := DrivenClasses(exclude);
    TestI18nStringsOutcome(None, exclude, Given(1));
    YieldsMeaning(None, cs);
    WholeTables(cs);
  }

  /** Excluding white space keeps every space character out of the yields,
      and excluding syntax keeps every syntax character out. */
  lemma Exclusions(stringLength: Option<int>, exclude: seq<Category>)
    requires ExpectedYields(stringLength, exclude, Given(1)).Ok?
    ensures WhiteSpace in exclude ==>
      forall s, ch :: s in ExpectedYields(stringLength, exclude, Given(1)).value && ch in s ==> ch !in Table(WhiteSpace)
    ensures Syntax in exclude ==>
      forall s, ch :: s in ExpectedYields(stringLength, exclude, Given(1)).value && ch in s ==> ch !in Table(Syntax)
  {
    var cs := DrivenClasses(exclude);
    assert forall k :: 0 <= k < |cs| ==> cs[k] in {Chinese, German, MaxLength, Syntax, WhiteSpace};
    if WhiteSpace in exclude {
      YieldsAvoid(stringLength, cs, WhiteSpace);
    }
    if Syntax in exclude {
      YieldsAvoid(stringLength, cs, Syntax);
    }
  }

  /** No character of a driven table left out of `cs` is yielded. */
  lemma YieldsAvoid(stringLength: Option<int>, cs: seq<Category>, d: Category)
    requires Yields(stringLength, cs).Ok?
    requires forall k :: 0 <= k < |cs| ==> cs[k] in {Chinese, German, MaxLength, Syntax, WhiteSpace}
    requires d in {Syntax, WhiteSpace} && d !in cs
    ensures forall s, ch :: s in Yields(stringLength, cs).value && ch in s ==> ch !in Table(d)
  {
    YieldsMeaning(stringLength, cs);
    BatchesShape(stringLength, cs);
    forall s, ch | s in Batches(stringLength, cs) && ch in s
      ensures ch !in Table(d)
    {
      var k :| 0 <= k < |cs| && ch in Table(cs[k]);
      TableApart(cs[k], d, ch);
    }
  }

  /** `test_i18n_strings(10) { |s| ... }` yields ten strings of ten
      characters: four Chinese, one German, one ß, two syntax, two white
      space, in the order of the blocks. */
  lemma TenCharacterRun()
    ensures ExpectedYields(Some(10), [], Given(1)).Ok?
    ensures |ExpectedYields(Some(10), [], Given(1)).value| == 10
    ensures TilingOf(Chinese, Some(10)).Ok? && |TilingOf(Chinese, Some(10)).value| == 4
    ensures TilingOf(German, Some(10)).Ok? && |TilingOf(German, Some(10)).value| == 1
    ensures TilingOf(MaxLength, Some(10)).Ok? && |TilingOf(MaxLength, Some(10)).value| == 1
    ensures TilingOf(Syntax, Some(10)).Ok? && |TilingOf(Syntax, Some(10)).value| == 2
    ensures TilingOf(WhiteSpace, Some(10)).Ok? && |TilingOf(WhiteSpace, Some(10)).value| == 2
    ensures ExpectedYields(Some(10), [], Given(1)).value ==
      TilingOf(Chinese, Some(10)).value + TilingOf(German, Some(10)).value + TilingOf(MaxLength, Some(10)).value
      + TilingOf(Syntax, Some(10)).value + TilingOf(WhiteSpace, Some(10)).value
    ensures forall s :: s in ExpectedYields(Some(10), [], Given(1)).value ==> |s| == 10
  {
    var cs := DrivenClasses([]);
    assert cs == [Chinese, German, MaxLength, Syntax, WhiteSpace];
    YieldedLength(10, []);
    YieldsMeaning(Some(10), cs);
    TenCharacterTilings();
    BatchesOfFive(Some(10), Chinese, German, MaxLength, Syntax, WhiteSpace);
  }

  /** How many strings each table gives at length 10. */
  lemma TenCharacterTilings()
    ensures TilingOf(Chinese, Some(10)).Ok? && |TilingOf(Chinese, Some(10)).value| == 4
    ensures TilingOf(German, Some(10)).Ok? && |TilingOf(German, Some(10)).value| == 1
    ensures TilingOf(MaxLength, Some(10)).Ok? && |TilingOf(MaxLength, Some(10)).value| == 1
    ensures TilingOf(Syntax, Some(10)).Ok? && |TilingOf(Syntax, Some(10)).value| == 2
    ensures TilingOf(WhiteSpace, Some(10)).Ok? && |TilingOf(WhiteSpace, Some(10)).value| == 2
  {
    TableSizes();
  }

  /** The joined tilings of five categories, one after the other. */
  lemma BatchesOfFive(stringLength: Option<int>, c0: Category, c1: Category, c2: Category, c3: Category, c4: Category)
    ensures Batches(stringLength, [c0, c1, c2, c3, c4]) == Piece(c0, stringLength) + Piece(c1, stringLength)
      + Piece(c2, stringLength) + Piece(c3, stringLength) + Piece(c4, stringLength)
  {
    var cs := [c0, c1, c2, c3, c4];
    assert cs[4..][1..] == [];
    assert Batches(stringLength, cs[4..]) == Piece(c4, stringLength);
    assert cs[3..][1..] == cs[4..];
    assert Batches(stringLength, cs[3..]) == Piece(c3, stringLength) + Batches(stringLength, cs[4..]);
    assert cs[2..][1..] == cs[3..];
    assert Batches(stringLength, cs[2..]) == Piece(c2, stringLength) + Batches(stringLength, cs[3..]);
    assert cs[1..][1..] == cs[2..];
    assert Batches(stringLength, cs[1..]) == Piece(c1, stringLength) + Batches(stringLength, cs[2..]);
    RegroupFive(Piece(c0, stringLength), Piece(c1, stringLength), Piece(c2, stringLength),
      Piece(c3, stringLength), Piece(c4, stringLength));
  }
}
