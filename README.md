# beaker-qa-i18n string generator, modelled in Dafny

This project models `I18nStringGenerator`, the mixin of the beaker-qa-i18n gem
that builds internationalised test strings for Beaker acceptance tests. It
covers the following parts:

- **Character tables.** The gem has seven fixed tables: CJK ideographs, German
  umlauts, English letters, digits, white space, `ß` and syntax punctuation.
  `get_i18n_string` returns one of them whole, and `get_test_string` joins
  prefixes of four of them.
- **Tiling.** `get_strings_of_length_from_char_array` cuts a table into strings
  of one length, or repeats it up to that length. The last string is padded
  from the front of the table.
- **Random strings.** `random_characters` and its wrappers draw characters from
  an inflated pool of the tables. The sentence builders
  `random_multi_lang_sentence` and `random_english_sentence` insert spaces
  into such a string and end it with a period.
- **The driver.** `test_i18n_strings` tiles the Chinese, German, `ß`, syntax
  and white-space tables in that order and yields every string to the
  caller's block. The syntax and white-space tables can be excluded.

The model is organised as follows:

- `common.dfy` holds the failure values, `Repeat` and `Concat`, and arithmetic
  and sequence helpers.
- `tables.dfy` holds the tables and `get_test_string`.
- `tiling.dfy` holds the reference definition `Tiled` and the loop-based method
  that follows the Ruby branches.
- `sampling.dfy` holds the pool and the draw.
- `sentences.dfy` holds the space-insertion loop and the sentence builders.
- `driver.dfy` holds `test_i18n_strings`.

Some inputs are modelled in place of things the Ruby code does at run time:

- The random generator becomes explicit inputs. `picks` holds the pool slots
  chosen by `Array#sample`: each slot is in range and none is chosen twice.
  `steps` holds the step widths the sentence loop draws, each in 1..12.
- A call that raises, or that never returns, gives an `Err` value. The Ruby
  tiling loops never end for a length below 1 that differs from the table
  length. The growing loop also never ends for an empty table.
- The block is modelled by its presence and arity. The driver returns the
  sequence of strings it yields.

## Model

| member | source | states |
|---|---|---|
| CharTables.CharRange | lib/beaker-qa-i18n/i18n_string_generator.rb:6-12 | `[*lo..hi]` has hi - lo + 1 characters, and character i is code point lo + i |
| CharTables.Table | lib/beaker-qa-i18n/i18n_string_generator.rb:6-14 | every table is non-empty, and only the white-space table contains a plain space |
| CharTables.TableSizes | lib/beaker-qa-i18n/i18n_string_generator.rb:6-14 | the tables have 33, 6, 58, 10, 11, 1 and 15 entries |
| CharTables.RubyPrefix | lib/beaker-qa-i18n/i18n_string_generator.rb:57 | `a[0...len]` is the prefix of `a` with `PrefixLength(|a|, len)` elements: its length is `len` capped at `|a|`, or `|a| + len` (at least 0) for a negative `len` |
| CharTables.GetTestString | lib/beaker-qa-i18n/i18n_string_generator.rb:56-58 | for every len, the Chinese, English, German and syntax prefixes of `PrefixLength` elements each, joined in that order; so every character comes from those tables; for 0 ≤ len ≤ 6 the result is four blocks of `len` characters, and for len ≥ 58 it is the four tables joined |
| CharTables.TestStringLengths | lib/beaker-qa-i18n/i18n_string_generator.rb:56-58 | `get_test_string(10)` has 10 + 10 + 6 + 10 characters with the whole German table in positions 20..25; `get_test_string(-1)` has 108 and `get_test_string(-20)` 51 |
| CharTables.DefaultTestString | lib/beaker-qa-i18n/i18n_string_generator.rb:56-58 | with the default length 5 the string is U+4E00..U+4E04, ABCDE, ÄäÖöÜ and `&+/\"` |
| CharTables.TableApart | lib/beaker-qa-i18n/i18n_string_generator.rb:6-14 | the driven tables share no character with the syntax or white-space table |
| CharTables.TableRanges | lib/beaker-qa-i18n/i18n_string_generator.rb:6-14 | the code-point ranges of the Chinese, German, ß, white-space and syntax tables |
| Tiling.Tiled | lib/beaker-qa-i18n/i18n_string_generator.rb:157-176 | tiling returns exactly when both the table and the length are non-empty or the table has the requested length; otherwise a loop never ends; a result has at least one string, and every string has the requested length |
| Tiling.TiledWhole | lib/beaker-qa-i18n/i18n_string_generator.rb:158-161 | a table tiled at its own length (also the nil default) gives exactly one string, the table itself |
| Tiling.TiledShorter | lib/beaker-qa-i18n/i18n_string_generator.rb:162-167 | a table shorter than L gives one string: the first L characters of the table repeated ceil(L / n) times |
| Tiling.TiledLonger | lib/beaker-qa-i18n/i18n_string_generator.rb:168-174 | a table of n > L characters gives ceil(n / L) strings: consecutive L-blocks, then the remainder padded with the first characters of the table; joined, they are the table followed by that padding |
| Tiling.TiledFullBlocks | lib/beaker-qa-i18n/i18n_string_generator.rb:170-172 | every string before the last is the next L characters of the table |
| Tiling.TiledLastBlock | lib/beaker-qa-i18n/i18n_string_generator.rb:174 | the last string is what remains of the table followed by its first L - remainder characters |
| Tiling.ConcatOfBlocks | lib/beaker-qa-i18n/i18n_string_generator.rb:170-172 | the sliced-off blocks, joined, are a prefix of the table in order |
| Tiling.TiledAt | lib/beaker-qa-i18n/i18n_string_generator.rb:157-176 | character i of string j is table character (j·L + i) mod n |
| Tiling.TiledRetile | lib/beaker-qa-i18n/i18n_string_generator.rb:157-176 | tiling the joined strings again at the same length gives the same strings |
| Tiling.GetStringsOfLength | lib/beaker-qa-i18n/i18n_string_generator.rb:157-176 | the three branches with their growing and slicing loops return exactly `Tiled` of the table at `string_length`, or at the table length when that is nil |
| Tiling.GetI18nString | lib/beaker-qa-i18n/i18n_string_generator.rb:28-31 | the first string of the nil-length tiling is the whole table of the category |
| Sampling.Pool | lib/beaker-qa-i18n/i18n_string_generator.rb:114 | the pool has length × (total table size) slots, and every slot holds a character of the tables |
| Sampling.SampleWithinPool | lib/beaker-qa-i18n/i18n_string_generator.rb:115 | drawing distinct slots never takes a character more often than the pool holds it |
| Sampling.RandomCharacters | lib/beaker-qa-i18n/i18n_string_generator.rb:113-116 | a negative length raises; otherwise the result has exactly `length` characters (none for empty tables), and every one from the tables; it also states the multiset bound within the pool, which follows from those two (each character is in the pool `length` times), while the general "no slot twice" fact is `SampleWithinPool` |
| Sampling.RandomMultiLang | lib/beaker-qa-i18n/i18n_string_generator.rb:37-39 | exactly `length` Chinese, English or German characters; a negative length raises |
| Sampling.RandomChineseCharacters | lib/beaker-qa-i18n/i18n_string_generator.rb:65-67 | exactly `length` Chinese characters |
| Sampling.RandomEnglish | lib/beaker-qa-i18n/i18n_string_generator.rb:73-75 | exactly `length` English-table characters |
| Sampling.RandomAlphaNumeric | lib/beaker-qa-i18n/i18n_string_generator.rb:96-98 | exactly `length` English or digit characters |
| Sampling.RandomGerman | lib/beaker-qa-i18n/i18n_string_generator.rb:104-106 | exactly `length` umlauts |
| Sampling.FlattenedSizes | lib/beaker-qa-i18n/i18n_string_generator.rb:38 | the multi-language pool has 97 characters per copy and the alphanumeric one 68 |
| Sentences.RemoveSpaces | lib/beaker-qa-i18n/i18n_string_generator.rb:51 | the text without its spaces contains no space and is no longer than the text |
| Sentences.InsertionIndices | lib/beaker-qa-i18n/i18n_string_generator.rb:48-52 | every index at which the loop inserts a space lies strictly between the start index and length - 1, and the first is 1..12 past the start |
| Sentences.InsertionGaps | lib/beaker-qa-i18n/i18n_string_generator.rb:50 | consecutive insertion indices are 1..12 apart |
| Sentences.InsertionStops | lib/beaker-qa-i18n/i18n_string_generator.rb:49 | the loop stops at the first index within 13 of `length`: the start (when the loop runs) and every insertion index but the last are more than 13 below `length`, and the last one reached is not |
| Sentences.InsertSpaceKeepsText | lib/beaker-qa-i18n/i18n_string_generator.rb:51 | inserting a space leaves the non-space text unchanged |
| Sentences.InsertLoopStep | lib/beaker-qa-i18n/i18n_string_generator.rb:49-51 | each insertion index is within the current string, and one turn of the loop keeps the loop invariant |
| Sentences.InsertSpaceMarks | lib/beaker-qa-i18n/i18n_string_generator.rb:51 | after inserting a space at a later index, the spaces are exactly the earlier insertion indices plus the new one |
| Sentences.InsertSpaces | lib/beaker-qa-i18n/i18n_string_generator.rb:48-52 | the loop adds one space at each insertion index and none elsewhere (a character is a space exactly at the insertion indices), keeps the non-space text, and leaves the string unchanged up to length 13 |
| Sentences.BodyText | lib/beaker-qa-i18n/i18n_string_generator.rb:53 | cutting a spaced text after all its spaces keeps exactly the first cut - (number of spaces) characters of the unspaced text |
| Sentences.FinishSentence | lib/beaker-qa-i18n/i18n_string_generator.rb:53 | cutting to length - 1 characters and adding `.` gives `length` characters ending in `.`; below length - 1 a character is a space exactly at an insertion index, and the body without its spaces is the first length - 1 - (number of insertions) drawn characters |
| Sentences.Sentence | lib/beaker-qa-i18n/i18n_string_generator.rb:45-54 | fails for length < 2; otherwise exactly `length` characters ending in `.`; before the period a character is a space exactly at the insertion indices; every other character comes from the tables, and without its spaces the body is the first length - 1 - (number of insertions) characters of the draw |
| Sentences.RandomMultiLangSentence | lib/beaker-qa-i18n/i18n_string_generator.rb:45-54 | the same contract over the Chinese, English and German tables, against the draw of `random_multi_lang` |
| Sentences.RandomEnglishSentence | lib/beaker-qa-i18n/i18n_string_generator.rb:81-90 | as written: fails for length < 2, raises TypeError for length > 13, and otherwise returns the `length` drawn characters plus `.`, i.e. length + 1 characters |
| Sentences.EnglishSentenceDefects | lib/beaker-qa-i18n/i18n_string_generator.rb:86-89 | length 14 raises; length 5 gives 6 characters |
| Sentences.RandomEnglishSentenceCorrected | lib/beaker-qa-i18n/i18n_string_generator.rb:81-90 | the intended builder: exactly `length` English characters ending in `.`, with the spaces exactly at the insertion indices and the body, without them, the first length - 1 - (number of insertions) English characters drawn |
| Driver.DrivenClasses | lib/beaker-qa-i18n/i18n_string_generator.rb:135-153 | Chinese, German and ß come first; syntax is present exactly when not excluded, and likewise white space; nothing repeats; syntax comes before white space |
| Driver.YieldEach | lib/beaker-qa-i18n/i18n_string_generator.rb:135-137 | every string of a tiling is yielded after the earlier ones, in order |
| Driver.YieldTiling | lib/beaker-qa-i18n/i18n_string_generator.rb:135-137 | one block of the driver: nothing after a failure; otherwise the tiling, then its strings |
| Driver.TestI18nStrings | lib/beaker-qa-i18n/i18n_string_generator.rb:131-154 | raises unless the block has arity 1, then runs the Chinese, German, ß, syntax and white-space blocks (the last two unless excluded) and yields exactly what they produce |
| Driver.YieldsMeaning | lib/beaker-qa-i18n/i18n_string_generator.rb:134-153 | the blocks succeed exactly when every tiling terminates; their yields are the tilings' strings, one category after another; the only failure is a non-terminating loop |
| Driver.EmitCases | lib/beaker-qa-i18n/i18n_string_generator.rb:135-137 | a block succeeds exactly when the earlier ones did and its tiling terminates, and it appends that tiling |
| Driver.BatchesSnoc | lib/beaker-qa-i18n/i18n_string_generator.rb:134-153 | one more block appends its tiling to the yields |
| Driver.TestI18nStringsOutcome | lib/beaker-qa-i18n/i18n_string_generator.rb:131-176 | the driver returns exactly when it gets a block of arity 1 and the length is nil or positive; a length below 1 never ends |
| Driver.TiledFromTable | lib/beaker-qa-i18n/i18n_string_generator.rb:157-176 | every character of a tiling comes from its table |
| Driver.BatchesShape | lib/beaker-qa-i18n/i18n_string_generator.rb:134-153 | with a positive length every yielded string has that length, and every character comes from a driven table |
| Driver.YieldedLength | lib/beaker-qa-i18n/i18n_string_generator.rb:131-176 | `test_i18n_strings(L)` with L ≥ 1 returns, and every yielded string has exactly L characters |
| Driver.WholeTables | lib/beaker-qa-i18n/i18n_string_generator.rb:158-161 | without a length, every table is yielded once and whole |
| Driver.YieldedWithoutLength | lib/beaker-qa-i18n/i18n_string_generator.rb:131-161 | `test_i18n_strings(nil)` yields exactly the driven tables, one string each, in driver order |
| Driver.Exclusions | lib/beaker-qa-i18n/i18n_string_generator.rb:146-153 | excluding `:white_space` keeps every white-space character out of the yields, and excluding `:syntax` keeps every syntax character out |
| Driver.YieldsAvoid | lib/beaker-qa-i18n/i18n_string_generator.rb:134-153 | no character of a driven table that is not run is yielded |
| Driver.TenCharacterRun | lib/beaker-qa-i18n/i18n_string_generator.rb:121-127 | `test_i18n_strings(10)` yields ten strings of ten characters: the four Chinese strings, then one German, one ß, two syntax and two white-space strings, each group being that table's tiling |
| Driver.TenCharacterTilings | lib/beaker-qa-i18n/i18n_string_generator.rb:157-176 | at length 10 the Chinese, German, ß, syntax and white-space tables tile into 4, 1, 1, 2 and 2 strings |
| Driver.BatchesOfFive | lib/beaker-qa-i18n/i18n_string_generator.rb:134-153 | the yields of five blocks are their tilings joined in order |

## Left out

- `get_rng` and the seeded `Random` (lines 19-23) are not modelled. So the
  actual output of `Array#sample` and of `(1..12).to_a.sample` is not modelled
  either. The model takes the drawn slots (`picks`) and step widths (`steps`)
  as inputs, and only claims what holds for every valid draw.
- The `logger.debug` calls are not modelled. They are diagnostic output only.
- The `.encode('UTF-8')` calls in the tiling are taken as the identity on
  code-point sequences.
- The `instance_eval` lookup in `get_i18n_string` is not modelled. It is
  replaced by the `Category` type, so the NameError for an unknown symbol is
  not modelled.
- The block passed to `test_i18n_strings` is reduced to its presence and arity.
  What the block does with each string is up to the caller. The driver returns
  the strings it yields.
- Strings in `exclude` other than `:syntax` and `:white_space` are ignored, as
  they are in the Ruby code. The model only accepts category values there.
- `get_test_string` returns an Array of one-character strings. It is modelled
  as a sequence of characters.
- Sentences.InsertionIndices: needs at least length - 13 step widths, enough
  for the loop to run out. Each step is at least 1, so the loop never takes
  more.
- A non-integer `string_length` or sentence length (a Float or a String) is
  not modelled.
- lib/beaker-qa-i18n.rb (the registration of the mixin with Beaker) is not
  part of this model.

## Findings

| source | as written | input that shows it | evidently intended | confidence | as-written member | corrected member |
|---|---|---|---|---|---|---|
| lib/beaker-qa-i18n/i18n_string_generator.rb:86 | `index + (1..12).to_a.sample(1)` adds an Array to an Integer, which raises TypeError on the first turn of the loop | `random_english_sentence(14)` | `index + (1..12).to_a.sample(1)[0]`, as in `random_multi_lang_sentence` | high; not executed | Sentences.EnglishSentenceDefects | Sentences.RandomEnglishSentenceCorrected |
| lib/beaker-qa-i18n/i18n_string_generator.rb:89 | `chars[0..(length-1)] + '.'` keeps all `length` characters and adds the period, giving length + 1 characters | `random_english_sentence(5)` returns 6 characters | `chars[0..(length-2)] + '.'`, as in `random_multi_lang_sentence` | high; not executed | Sentences.EnglishSentenceDefects | Sentences.RandomEnglishSentenceCorrected |
