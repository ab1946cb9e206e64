/** The sentence builders `random_multi_lang_sentence` and
    `random_english_sentence`: draw random characters, insert a space every
    1..12 positions until the insertion point is within 13 characters of the
    requested length, then cut the string and end it with a period.

    The random step widths are the parameter `steps` (each in 1..12), the
    random characters the parameter `picks` of the sampling functions. */
module Sentences {
  import opened Common
  import opened CharTables
  import opened Sampling

  predicate StepsValid(steps: seq<int>)
  {
    forall k :: 0 <= k < |steps| ==> 1 <= steps[k] <= 12
  }

  /** The string without its spaces. */
  function RemoveSpaces(s: string): (r: string)
    ensures ' ' !in r
    ensures |r| <= |s|
  {
    if s == [] then []
    else (if s[0] == ' ' then [] else [s[0]]) + RemoveSpaces(s[1..])
  }

  lemma {:induction false} RemoveSpacesAppend(a: string, b: string)
    ensures RemoveSpaces(a + b) == RemoveSpaces(a) + RemoveSpaces(b)
  {
    if a == [] {
      assert a + b == b;
    } else {
      assert (a + b)[1..] == a[1..] + b;
      RemoveSpacesAppend(a[1..], b);
    }
  }

  lemma {:induction false} RemoveSpacesNone(s: string)
    requires ' ' !in s
    ensures RemoveSpaces(s) == s
  {
    if s != [] {
      RemoveSpacesNone(s[1..]);
    }
  }

  /** The indices at which the insertion loop puts spaces when it starts at
      `index`: each 1..12 past the one before, all inside the final sentence
      body (below length - 1), and the last within 13 of `length`. */
  function InsertionIndices(index: int, length: int, steps: seq<int>): (r: seq<int>)
    requires StepsValid(steps) && length - 13 <= index + |steps|
    ensures forall k :: 0 <= k < |r| ==> index < r[k] < length - 1
    ensures |r| > 0 ==> 1 <= r[0] - index <= 12
    ensures |r| > 0 ==> |r| <= length - 2 - index
    decreases |steps|
  {
    if index + 13 < length then
      [index + steps[0]] + InsertionIndices(index + steps[0], length, steps[1..])
    else
      []
  }

  /** Consecutive insertion indices are 1..12 apart. */
  lemma {:induction false} InsertionGaps(index: int, length: int, steps: seq<int>, k: int)
    requires StepsValid(steps) && length - 13 <= index + |steps|
    requires 0 < k < |InsertionIndices(index, length, steps)|
    ensures 1 <= InsertionIndices(index, length, steps)[k] - InsertionIndices(index, length, steps)[k - 1] <= 12
    decreases |steps|
  {
    var next := index + steps[0];
    var rest := InsertionIndices(next, length, steps[1..]);
    if k > 1 {
      InsertionGaps(next, length, steps[1..], k - 1);
    }
  }

  /** The loop stops at the first index within 13 of `length`: the start and
      every insertion index but the last are more than 13 below `length`, and
      the last (or the start when there is none) is at least length - 13. */
  lemma {:induction false} InsertionStops(index: int, length: int, steps: seq<int>)
    requires StepsValid(steps) && length - 13 <= index + |steps|
    ensures var r := InsertionIndices(index, length, steps);
      (if r == [] then index else r[|r| - 1]) + 13 >= length
    ensures var r := InsertionIndices(index, length, steps);
      |r| > 0 ==> index + 13 < length
    ensures var r := InsertionIndices(index, length, steps);
      forall k :: 0 <= k < |r| - 1 ==> r[k] + 13 < length
    decreases |steps|
  {
    if index + 13 < length {
      var next := index + steps[0];
      InsertionStops(next, length, steps[1..]);
      var rest := InsertionIndices(next, length, steps[1..]);
      assert InsertionIndices(index, length, steps) == [next] + rest;
    }
  }

  /** Inserting one space leaves the non-space characters as they were. */
  lemma InsertSpaceKeepsText(chars: string, index: int)
    requires 0 <= index <= |chars|
    ensures RemoveSpaces(chars[..index] + " " + chars[index..]) == RemoveSpaces(chars)
  {
    var front, back := chars[..index], chars[index..];
    assert chars == front + back;
    assert RemoveSpaces(" ") == [] by {
      assert " "[1..] == [];
    }
    RemoveSpacesAppend(front, " ");
    assert RemoveSpaces(front) + [] == RemoveSpaces(front);
    assert RemoveSpaces(front + " ") == RemoveSpaces(front);
    RemoveSpacesAppend(front + " ", back);
    RemoveSpacesAppend(front, back);
  }

  /** What holds of the insertion loop after k turns: `index` is the last
      insertion index (0 before the first), the spaces inserted so far are the
      first k insertion indices and the only spaces, and the text without its
      spaces is unchanged. */
  ghost predicate InsertLoopInv(chars: string, length: int, steps: seq<int>,
                                out: string, index: int, k: int, positions: seq<int>)
    requires StepsValid(steps) && length - 13 <= |steps|
  {
    && 0 <= k <= |steps| && length - 13 <= index + |steps| - k
    && positions + InsertionIndices(index, length, steps[k..]) == InsertionIndices(0, length, steps)
    && 0 <= index < length - 1 && |out| == |chars| + k && |positions| == k
    && (forall j :: 0 <= j < k ==> 0 <= positions[j] <= index && positions[j] < |out| && out[positions[j]] == ' ')
    && RemoveSpaces(out) == RemoveSpaces(chars)
    && (forall i :: 0 <= i < |out| ==> out[i] == ' ' || out[i] in chars)
    && (forall i :: 0 <= i < |out| ==> (out[i] == ' ' <==> i in positions))
    && (length <= 13 ==> out == chars)
  }

  /** One turn of the insertion loop keeps its invariant. */
  lemma InsertLoopStep(chars: string, length: int, steps: seq<int>,
                       out: string, index: int, k: int, positions: seq<int>)
    requires StepsValid(steps) && length - 13 <= |steps| && |chars| >= length && ' ' !in chars
    requires InsertLoopInv(chars, length, steps, out, index, k, positions)
    requires index + 13 < length
    ensures k < |steps| && 0 <= index + steps[k] <= |out|
    ensures var next := index + steps[k];
      InsertLoopInv(chars, length, steps, out[..next] + " " + out[next..], next, k + 1, positions + [next])
  {
    var next := index + steps[k];
    var rest := InsertionIndices(next, length, steps[k + 1..]);
    assert steps[k..][1..] == steps[k + 1..];
    assert InsertionIndices(index, length, steps[k..]) == [next] + rest;
    assert positions + [next] + rest == InsertionIndices(0, length, steps) by {
      assert positions + ([next] + rest) == (positions + [next]) + rest;
    }
    assert next < length - 1;
    var after := out[..next] + " " + out[next..];
    InsertSpaceContents(out, next, chars);
    InsertSpaceKeepsText(out, next);
    InsertSpaceMarks(out, next, index, positions);
    var ps := positions + [next];
    forall j | 0 <= j < k + 1
      ensures 0 <= ps[j] <= next && ps[j] < |after| && after[ps[j]] == ' '
    {
      if j < k {
        assert ps[j] == positions[j] && after[ps[j]] == out[ps[j]];
      }
    }
  }

  /** Inserting a space past every earlier insertion index: the spaces are
      then exactly at the earlier indices and at `next`. */
  lemma InsertSpaceMarks(out: string, next: int, index: int, positions: seq<int>)
    requires 0 <= index < next <= |out|
    requires forall j :: 0 <= j < |positions| ==> positions[j] <= index
    requires forall i :: 0 <= i < |out| ==> (out[i] == ' ' <==> i in positions)
    ensures var after := out[..next] + " " + out[next..];
      forall i :: 0 <= i < |after| ==> (after[i] == ' ' <==> i in positions + [next])
  {
    var after := out[..next] + " " + out[next..];
    forall i | 0 <= i < |after|
      ensures after[i] == ' ' <==> i in positions + [next]
    {
      if i < next {
        assert after[i] == out[i];
      } else if i > next {
        assert after[i] == out[i - 1];
        assert i - 1 !in positions && i !in positions;
      }
    }
  }

  /** Inserting a space at `next` keeps every character a space or one of `chars`. */
  lemma InsertSpaceContents(out: string, next: int, chars: string)
    requires 0 <= next <= |out|
    requires forall i :: 0 <= i < |out| ==> out[i] == ' ' || out[i] in chars
    ensures var after := out[..next] + " " + out[next..];
      && |after| == |out| + 1 && after[next] == ' '
      && (forall i :: 0 <= i < next ==> after[i] == out[i])
      && (forall i :: 0 <= i < |after| ==> after[i] == ' ' || after[i] in chars)
  {
    var after := out[..next] + " " + out[next..];
    forall i | 0 <= i < |after|
      ensures after[i] == ' ' || after[i] in chars
    {
      if i < next {
        assert after[i] == out[i];
      } else if i > next {
        assert after[i] == out[i - 1];
      }
    }
  }

  /** Before the first turn the invariant holds of the drawn characters. */
  lemma InsertLoopStart(chars: string, length: int, steps: seq<int>)
    requires StepsValid(steps) && length - 13 <= |steps| && length >= 2 && ' ' !in chars
    ensures InsertLoopInv(chars, length, steps, chars, 0, 0, [])
  {
    assert steps[0..] == steps;
  }

  /** When the loop exits, the spaces inserted are all the insertion indices. */
  lemma InsertLoopDone(chars: string, length: int, steps: seq<int>,
                       out: string, index: int, k: int, positions: seq<int>)
    requires StepsValid(steps) && length - 13 <= |steps|
    requires InsertLoopInv(chars, length, steps, out, index, k, positions)
    requires index + 13 >= length
    ensures positions == InsertionIndices(0, length, steps)
    ensures |out| == |chars| + |positions|
    ensures forall i :: 0 <= i < |out| ==> (out[i] == ' ' <==> i in InsertionIndices(0, length, steps))
  {
    assert InsertionIndices(index, length, steps[k..]) == [];
    assert positions + [] == positions;
  }

  /** The insertion loop of both sentence builders: starting at index 0,
      step forward and insert a space while the index is more than 13 below
      `length`. The spaces land exactly at the insertion indices and nothing
      else changes. */
  method InsertSpaces(chars: string, length: int, steps: seq<int>) returns (out: string)
    requires length >= 2 && |chars| >= length && ' ' !in chars
    requires StepsValid(steps) && length - 13 <= |steps|
    ensures |out| == |chars| + |InsertionIndices(0, length, steps)|
    ensures forall i :: 0 <= i < |out| ==> (out[i] == ' ' <==> i in InsertionIndices(0, length, steps))
    ensures RemoveSpaces(out) == RemoveSpaces(chars)
    ensures forall i :: 0 <= i < |out| ==> out[i] == ' ' || out[i] in chars
    ensures length <= 13 ==> out == chars
  {
    out := chars;
    var index := 0;
    var k := 0;
    ghost var positions: seq<int> := [];
    InsertLoopStart(chars, length, steps);
    while index + 13 < length
      invariant InsertLoopInv(chars, length, steps, out, index, k, positions)
      decreases length - index
    {
      InsertLoopStep(chars, length, steps, out, index, k, positions);
      var next := index + steps[k];
      out := out[..next] + " " + out[next..];
      positions := positions + [next];
      index := next;
      k := k + 1;
    }
    InsertLoopDone(chars, length, steps, out, index, k, positions);
  }

  /** Cutting the spaced characters to length - 1 and adding the period:
      the sentence facts follow from what the insertion loop guarantees. */
  lemma FinishSentence(sample: string, chars: string, length: int, steps: seq<int>, alphabet: seq<char>)
    requires length >= 2 && |sample| == length && ' ' !in sample
    requires forall ch :: ch in sample ==> ch in alphabet
    requires StepsValid(steps) && length - 13 <= |steps|
    requires |chars| == |sample| + |InsertionIndices(0, length, steps)|
    requires forall i :: 0 <= i < |chars| ==> (chars[i] == ' ' <==> i in InsertionIndices(0, length, steps))
    requires RemoveSpaces(chars) == RemoveSpaces(sample)
    requires forall i :: 0 <= i < |chars| ==> chars[i] == ' ' || chars[i] in sample
    requires length <= 13 ==> chars == sample
    ensures var r := chars[..length - 1] + ".";
      && |r| == length && r[length - 1] == '.'
      && (forall i :: 0 <= i < length - 1 ==> (r[i] == ' ' <==> i in InsertionIndices(0, length, steps)))
      && |InsertionIndices(0, length, steps)| < length - 1
      && RemoveSpaces(r[..length - 1]) == sample[..length - 1 - |InsertionIndices(0, length, steps)|]
      && (forall i :: 0 <= i < length - 1 ==> r[i] == ' ' || r[i] in alphabet)
      && (length <= 13 ==> r == sample[..length - 1] + ".")
  {
    var body := chars[..length - 1];
    var r := body + ".";
    forall i | 0 <= i < length - 1
      ensures r[i] == chars[i]
    {
    }
    BodyText(sample, chars, length - 1, InsertionIndices(0, length, steps));
    assert r[..length - 1] == body;
  }

  /** Cutting a string whose spaces are exactly at the indices `at`, all below
      `cut`, keeps all its spaces; the rest of the cut-off front is the
      corresponding prefix of the space-free text. */
  lemma BodyText(sample: string, chars: string, cut: int, at: seq<int>)
    requires 0 <= cut <= |chars| && ' ' !in sample && |chars| == |sample| + |at|
    requires forall k :: 0 <= k < |at| ==> at[k] < cut
    requires forall i :: 0 <= i < |chars| ==> (chars[i] == ' ' <==> i in at)
    requires RemoveSpaces(chars) == RemoveSpaces(sample)
    ensures |at| <= cut
    ensures RemoveSpaces(chars[..cut]) == sample[..cut - |at|]
  {
    var body, tail := chars[..cut], chars[cut..];
    assert ' ' !in tail by {
      forall i | 0 <= i < |tail|
        ensures tail[i] != ' '
      {
        assert tail[i] == chars[cut + i];
        assert cut + i !in at;
      }
    }
    assert RemoveSpaces(body) + tail == sample by {
      RemoveSpacesNone(sample);
      RemoveSpacesNone(tail);
      RemoveSpacesAppend(body, tail);
      assert chars == body + tail;
    }
  }

  /** The sentence algorithm of `random_multi_lang_sentence` over the given
      tables. The result has exactly `length` characters and ends in a period;
      the spaces before the period are exactly at the insertion indices; without
      them the body is the first length - 1 - (number of spaces) drawn
      characters, so the sentence is determined by the draw and the steps.
      Up to length 13 no space is inserted. */
  method Sentence(tables: seq<seq<char>>, length: int, picks: seq<nat>, steps: seq<int>)
    returns (r: Result<string>)
    requires |Concat(tables)| >= 1 && ' ' !in Concat(tables)
    requires length >= 2 ==> ValidDraw(picks, length, length * |Concat(tables)|)
    requires StepsValid(steps) && length - 13 <= |steps|
    ensures r.Err? <==> length < 2
    ensures r.Err? ==> r.error == SentenceTooShort
    ensures r.Ok? ==> |r.value| == length && r.value[length - 1] == '.'
    ensures r.Ok? ==> forall i :: 0 <= i < length - 1 ==>
      (r.value[i] == ' ' <==> i in InsertionIndices(0, length, steps))
    ensures r.Ok? ==>
      RemoveSpaces(r.value[..length - 1]) == RandomCharacters(tables, length, picks).value[..length - 1 - |InsertionIndices(0, length, steps)|]
    ensures r.Ok? ==> forall i :: 0 <= i < length - 1 ==> r.value[i] == ' ' || r.value[i] in Concat(tables)
    ensures r.Ok? && length <= 13 ==>
      r.value == RandomCharacters(tables, length, picks).value[..length - 1] + "."
  {
    if length <= 1 {
      r := Err(SentenceTooShort);
      return;
    }
    var sample := RandomCharacters(tables, length, picks).value;
    assert ' ' !in sample;
    var chars := InsertSpaces(sample, length, steps);
    FinishSentence(sample, chars, length, steps, Concat(tables));
    r := Ok(chars[..length - 1] + ".");
  }

  /** `random_multi_lang_sentence(length)` */
  method RandomMultiLangSentence(length: int, picks: seq<nat>, steps: seq<int>)
    returns (r: Result<string>)
    requires length >= 2 ==> ValidDraw(picks, length, length * 97)
    requires StepsValid(steps) && length - 13 <= |steps|
    ensures r.Err? <==> length < 2
    ensures r.Err? ==> r.error == SentenceTooShort
    ensures r.Ok? ==> |r.value| == length && r.value[length - 1] == '.'
    ensures r.Ok? ==> forall i :: 0 <= i < length - 1 ==>
      (r.value[i] == ' ' <==> i in InsertionIndices(0, length, steps))
    ensures r.Ok? ==>
      RemoveSpaces(r.value[..length - 1]) == RandomMultiLang(length, picks).value[..length - 1 - |InsertionIndices(0, length, steps)|]
    ensures r.Ok? ==> forall i :: 0 <= i < length - 1 ==>
      r.value[i] == ' ' || r.value[i] in ChineseChars || r.value[i] in EnglishChars || r.value[i] in GermanChars
  {
    FlattenedSizes();
    NoSpaceInTables();
    r := Sentence(MultiLangTables, length, picks, steps);
  }

  lemma NoSpaceInTables()
    ensures ' ' !in ChineseChars + EnglishChars + GermanChars
    ensures ' ' !in EnglishChars
  {
    assert ChineseChars == Table(Chinese) && EnglishChars == Table(English) && GermanChars == Table(German);
  }

  /** `random_english_sentence(length)` as the Ruby code has it. Its loop
      adds the Array `sample(1)` to the Integer index, which raises a
      TypeError on the first iteration, i.e. whenever length > 13; for
      lengths 2..13 the loop does not run and the inclusive slice
      `chars[0..(length-1)]` keeps all `length` drawn characters, so the
      sentence has length + 1 characters. */
  function RandomEnglishSentence(length: int, picks: seq<nat>): (r: Result<string>)
    requires length >= 2 ==> ValidDraw(picks, length, length * 58)
    ensures r.Err? <==> length < 2 || length > 13
    ensures length < 2 ==> r == Err(SentenceTooShort)
    ensures length > 13 ==> r == Err(ArrayNotCoercibleToInteger)
    ensures r.Ok? ==> |r.value| == length + 1 && r.value[length] == '.'
    ensures r.Ok? ==> r.value[..length] == RandomEnglish(length, picks).value
  {
    if length <= 1 then
      Err(SentenceTooShort)
    else
      var chars := RandomEnglish(length, picks).value;
      var index := 0;
      if index + 13 < length then
        Err(ArrayNotCoercibleToInteger)
      else
        Ok(chars[0..length] + ".")
  }

  /** Both defects of the English builder, on concrete inputs: length 14
      raises, and length 5 gives six characters. */
  lemma EnglishSentenceDefects()
    ensures RandomEnglishSentence(14, [0, 1, 2, 3, 4, 5, 6, 7, 8, 9, 10, 11, 12, 13])
      == Err(ArrayNotCoercibleToInteger)
    ensures |RandomEnglishSentence(5, [0, 1, 2, 3, 4]).value| == 6
  {
  }

  /** `random_english_sentence(length)` as evidently intended: the same
      algorithm as the multi-language builder over the English table, so the
      sentence has exactly `length` characters for every length >= 2. */
  method RandomEnglishSentenceCorrected(length: int, picks: seq<nat>, steps: seq<int>)
    returns (r: Result<string>)
    requires length >= 2 ==> ValidDraw(picks, length, length * 58)
    requires StepsValid(steps) && length - 13 <= |steps|
    ensures r.Err? <==> length < 2
    ensures r.Err? ==> r.error == SentenceTooShort
    ensures r.Ok? ==> |r.value| == length && r.value[length - 1] == '.'
    ensures r.Ok? ==> forall i :: 0 <= i < length - 1 ==>
      (r.value[i] == ' ' <==> i in InsertionIndices(0, length, steps))
    ensures r.Ok? ==>
      RemoveSpaces(r.value[..length - 1]) == RandomEnglish(length, picks).value[..length - 1 - |InsertionIndices(0, length, steps)|]
    ensures r.Ok? ==> forall i :: 0 <= i < length - 1 ==> r.value[i] == ' ' || r.value[i] in EnglishChars
  {
    FlattenedSizes();
    NoSpaceInTables();
    r := Sentence([EnglishChars], length, picks, steps);
  }
}
