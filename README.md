# json-struct in Dafny

A model of the core of json-struct, a Java library that reads and writes JSON. The library has two halves.

- **The JSON text engine**:
  - a character-level tokenizer and a recursive-descent parser into a tree of JSON values;
  - the readers and the growable char buffer they fill;
  - the writer side, which escapes strings and pretty-prints;
  - JSON Pointer evaluation, following sections 3 and 4 of RFC 6901.
- **The code-generation helpers** of its annotation processor:
  - line-based code templates;
  - the import collector that shortens type names;
  - the path joiner;
  - the selection rules over the language model, such as which constructor to call and which methods are bean accessors;
  - the two generators, Objectify and Stringify, which write the code converting between JSON and a class, and cut recursion off on cyclic types;
  - the converter registry.

Each Dafny module follows one source file.

| file | module | models |
|---|---|---|
| `wrappers.dfy` | `Wrappers` | `Option`, `Result` and the Java exceptions the core throws, as `Failure` values |
| `text.dfy` | `JavaText` | the `java.lang.String` methods the core calls, such as `indexOf`, `split`, `trim`, `strip`, `isBlank`, `replace` and `String.join` (library code, not json-struct's) |
| `hex.dfy` | `Hex` | `parser/Hex.java` |
| `char_array.dfy` | `CharArrays` | `lang/CharArray.java` |
| `string_reader.dfy` | `StringReaders` | `lang/StringReader.java` |
| `char_buffer_reader.dfy` | `CharBufferReaders` | `lang/CharBufferReader.java` |
| `iterate.dfy` | `Iterate` | `lang/Iterate.java`, `lang/Iteration.java` |
| `token.dfy` | `Tokens` | `parser/Token.java` |
| `json_value.dfy` | `JsonValues` | the tree the parser builds (`parser/JsonObject.java`, `parser/JsonArray.java`, the scalar values) |
| `lexer.dfy` | `Lexer` | the token grammar `parser/Tokenizer.java` implements, as functions |
| `tokenizer.dfy` | `Tokenizers` | `parser/Tokenizer.java`, proved against `Lexer` |
| `parser.dfy` | `Parsers` | `parser/Parser.java` |
| `stringify_builder.dfy` | `StringifyBuilders` | `convert/StringifyBuilder.java` |
| `pretty_writer.dfy` | `PrettyWriters` | `JsonPrettyWriter.java` |
| `pretty_layout.dfy` | `PrettyLayouts` | the layout `JsonPrettyWriter.java` gives a compact JSON document: a datatype of documents, their compact and pretty texts, and the proof that the writer turns the one into the other |
| `pretty_writer_test.dfy` | `PrettyWriterTestCase` | the case `testPrettyString` of `JsonPrettyWriterTest.java`, stated as a lemma |
| `json_pointer.dfy` | `JsonPointers` | `parser/JsonPointer.java` |
| `imports.dfy` | `ImportLists` | `processor/assembly/Imports.java` |
| `code.dfy` | `Codes` | `processor/assembly/Code.java` |
| `path.dfy` | `Paths` | `processor/assembly/Path.java` |
| `lang_util.dfy` | `LangUtils` | `processor/LangUtil.java`, over a small model of the language elements |
| `generator.dfy` | `Generators` | what Objectify and Stringify share: the type stack and its cut-off measure, `uniqueName`, and the template operations on lines |
| `objectify.dfy` | `Objectifies` | `processor/assembly/Objectify.java` |
| `stringify.dfy` | `Stringifies` | `processor/assembly/Stringify.java` |
| `converts.dfy` | `Converters` | `convert/Converts.java` |

Classes whose fields the source updates in place are Dafny classes. Their methods are proved against a function of the old state: for example, a reader's `Pending()` is the list of chars still to come. Pure code becomes functions, and the lemmas next to them state what the source promises.

Java `char` values of the JSON engine are UTF-16 code units, `CodeUnit`: an `int` from 0 to 0xFFFF. Dafny's `char` cannot hold a lone surrogate, and `\uD800` is a legal JSON escape. The code-generation half works on Dafny `string`s. Java's 32-bit `int` arithmetic is written out where it matters: `CharArrays.Int32` for sizes, and the `getInt`/`getLong` range tests in `Tokens`.

## Model


| member | source | states |
|---|---|---|
| Hex.HexDigitListed | lib/src/main/java/com/mammb/code/jsonstruct/parser/Hex.java:30-38 | the three ranges the initializer fills hold exactly the sixteen digits, upper or lower case |
| Hex.TableValue | lib/src/main/java/com/mammb/code/jsonstruct/parser/Hex.java:28-38 | entry i of the table lies in [-1, 15]; it is -1 exactly when i is not a hex digit, and otherwise the value of that digit |
| Hex.InitTable | lib/src/main/java/com/mammb/code/jsonstruct/parser/Hex.java:27-39 | the static initializer leaves a fresh 128-entry table holding TableValue(i) at every index i |
| Hex.DigitValue | lib/src/main/java/com/mammb/code/jsonstruct/parser/Hex.java:41-43 | the result lies in [-1, 15]; it is -1 exactly for the non-digits, negatives and values of 128 and more included, and otherwise the digit's value |
| Hex.Digit | lib/src/main/java/com/mammb/code/jsonstruct/parser/Hex.java:41-43 | digit(ch) on the initialised table equals DigitValue(ch) for every int, and is -1 exactly off the hex digits |
| Hex.DeHex | lib/src/main/java/com/mammb/code/jsonstruct/parser/Hex.java:45-56 | deHex(c) agrees with digit(c) for every char |
| CharArrays.Int32 | lib/src/main/java/com/mammb/code/jsonstruct/lang/CharArray.java:251 | Java int addition wraps: the result is an int, congruent to x modulo 2^32, and x itself when x is an int |
| CharArrays.NewCapacityBounds | lib/src/main/java/com/mammb/code/jsonstruct/lang/CharArray.java:250-262 | newCapacity throws OutOfMemoryError exactly when old + minGrowth overflows, and otherwise returns at least old + minGrowth and at most Integer.MAX_VALUE |
| CharArrays.NewCapacity | lib/src/main/java/com/mammb/code/jsonstruct/lang/CharArray.java:250-262 | a new capacity is positive and at most Integer.MAX_VALUE; the only failure is OutOfMemoryError |
| CharArrays.GrownCapacity | lib/src/main/java/com/mammb/code/jsonstruct/lang/CharArray.java:231-240 | from capacity 0 grow succeeds with at least 32 and at least the request; from any other capacity a success is a positive int; the only failure is OutOfMemoryError |
| CharArrays.GrownCapacityCovers | lib/src/main/java/com/mammb/code/jsonstruct/lang/CharArray.java:231-240 | grow never fails for a request within int range and covers it; from capacity 0 it allocates max(32, minCapacity) |
| CharArrays.AddAsWrittenOverflows | lib/src/main/java/com/mammb/code/jsonstruct/lang/CharArray.java:82-89 | a full buffer of 32 chars given 100 more grows to capacity 100 only, fewer than the 132 chars the arraycopy writes |
| CharArrays.AddRequestCovers | lib/src/main/java/com/mammb/code/jsonstruct/lang/CharArray.java:82-89 | growing by length + values.length always leaves room for the new chars |
| CharArrays.SubArray.constructor | lib/src/main/java/com/mammb/code/jsonstruct/lang/CharArray.java:271 | the view holds the array and the bounds it was given |
| CharArrays.SubArray.Chars | lib/src/main/java/com/mammb/code/jsonstruct/lang/CharArray.java:273-276 | Arrays.copyOfRange: IllegalArgumentException first, when end - start (in int arithmetic) is negative; then IndexOutOfBoundsException for a start outside the array; otherwise end - start chars copied from start, padded with `\0` past the array |
| CharArrays.CharArray.Empty | lib/src/main/java/com/mammb/code/jsonstruct/lang/CharArray.java:53-55 | of(): no contents, capacity 0 |
| CharArrays.CharArray.WithCapacity | lib/src/main/java/com/mammb/code/jsonstruct/lang/CharArray.java:63-65 | of(capacity): NegativeArraySizeException exactly for a negative capacity; otherwise a fresh buffer with no contents and the given capacity |
| CharArrays.CharArray.FromChars | lib/src/main/java/com/mammb/code/jsonstruct/lang/CharArray.java:73-75 | of(values): a copy of the values, full to capacity |
| CharArrays.CharArray.Grow | lib/src/main/java/com/mammb/code/jsonstruct/lang/CharArray.java:231-240 | the contents are kept; the new capacity is GrownCapacity, and it fails with OutOfMemoryError exactly when that does |
| CharArrays.CharArray.AddChar | lib/src/main/java/com/mammb/code/jsonstruct/lang/CharArray.java:96-101 | add(char) appends exactly that char and keeps the earlier contents; it fails only when the length would pass Integer.MAX_VALUE, and then nothing changes |
| CharArrays.CharArray.Room | lib/src/main/java/com/mammb/code/jsonstruct/lang/CharArray.java:97-99 | when the array is full it is regrown to hold length + 1, or OutOfMemoryError is raised exactly at length Integer.MAX_VALUE; the contents are kept either way |
| CharArrays.CharArray.AddCharsAsWritten | lib/src/main/java/com/mammb/code/jsonstruct/lang/CharArray.java:82-89 | add(char[]) as written succeeds exactly when the capacity it grows to, by values.length only, holds the old and the new chars; then the values are appended |
| CharArrays.CharArray.AddChars | lib/src/main/java/com/mammb/code/jsonstruct/lang/CharArray.java:82-89 | add(char[]) growing by length + values.length appends the values after the contents whenever the total fits an int, and leaves the contents alone otherwise |
| CharArrays.CharArray.CopyIn | lib/src/main/java/com/mammb/code/jsonstruct/lang/CharArray.java:87-88 | the arraycopy into a buffer with room appends the values |
| CharArrays.CharArray.Get | lib/src/main/java/com/mammb/code/jsonstruct/lang/CharArray.java:122-124 | get(index) reads any slot of the backing array, past the length included, and fails beyond the capacity |
| CharArrays.CharArray.Array | lib/src/main/java/com/mammb/code/jsonstruct/lang/CharArray.java:131-133 | array() is a fresh copy of exactly the chars added |
| CharArrays.CharArray.SubArrayOf | lib/src/main/java/com/mammb/code/jsonstruct/lang/CharArray.java:142-144 | subArray(start, end) is a view sharing the backing array |
| CharArrays.CharArray.SubArrayFrom | lib/src/main/java/com/mammb/code/jsonstruct/lang/CharArray.java:152-154 | subArray(start) is the view of [start, length) of the backing array |
| CharArrays.CharArray.SubString | lib/src/main/java/com/mammb/code/jsonstruct/lang/CharArray.java:162-164 | subString(start) is the contents from start, and IndexOutOfBounds for a start outside [0, length] |
| CharArrays.CharArray.PopString | lib/src/main/java/com/mammb/code/jsonstruct/lang/CharArray.java:171-175 | popString returns the contents and leaves the buffer empty |
| CharArrays.CharArray.PopChars | lib/src/main/java/com/mammb/code/jsonstruct/lang/CharArray.java:182-186 | popChars returns a fresh copy of the contents and leaves the buffer empty |
| CharArrays.CharArray.Clear | lib/src/main/java/com/mammb/code/jsonstruct/lang/CharArray.java:192-195 | clear empties the buffer and drops the capacity to 0 |
| CharArrays.CharArray.Reset | lib/src/main/java/com/mammb/code/jsonstruct/lang/CharArray.java:202-205 | reset empties the buffer and keeps the same backing array |
| StringReaders.ReadIntoResult | lib/src/main/java/com/mammb/code/jsonstruct/lang/StringReader.java:66-77 | read(chars, off, len) fails exactly on a bad range; it returns 0 for len 0 and -1 exactly at the end; otherwise it returns min(remaining, len), which is positive |
| StringReaders.StringReader.constructor | lib/src/main/java/com/mammb/code/jsonstruct/lang/StringReader.java:46-51 | a new reader has the whole string pending, with cursor and mark at 0 |
| StringReaders.StringReader.Read | lib/src/main/java/com/mammb/code/jsonstruct/lang/StringReader.java:58-62 | read() returns the next pending char and drops it; at the end it returns -1 and stays at the end |
| StringReaders.StringReader.ReadInto | lib/src/main/java/com/mammb/code/jsonstruct/lang/StringReader.java:66-77 | the result is ReadIntoResult; the chars copied are the next pending ones, placed from off; the cursor advances by the count; no other array slot changes |
| StringReaders.StringReader.Mark | lib/src/main/java/com/mammb/code/jsonstruct/lang/StringReader.java:87-91 | mark saves the cursor; a negative limit is an IllegalArgumentException and changes nothing |
| StringReaders.StringReader.Reset | lib/src/main/java/com/mammb/code/jsonstruct/lang/StringReader.java:95-97 | reset goes back to the saved mark, which is the start when none was set |
| StringReaders.StringReader.Skip | lib/src/main/java/com/mammb/code/jsonstruct/lang/StringReader.java:101-108 | skip moves by n, clamped to the remaining count and to the start; it returns the distance moved, and 0 at the end |
| StringReaders.StringReader.Close | lib/src/main/java/com/mammb/code/jsonstruct/lang/StringReader.java:112-117 | close leaves an empty reader |
| CharBufferReaders.LeadingCount | lib/src/main/java/com/mammb/code/jsonstruct/lang/CharBufferReader.java:100-123 | the count of leading chars satisfying until is at most the length of the list |
| CharBufferReaders.LeadingCountMeaning | lib/src/main/java/com/mammb/code/jsonstruct/lang/CharBufferReader.java:100-123 | the count is the length of the longest prefix of chars satisfying until: every element before it passes, and the element at it does not |
| CharBufferReaders.FirstNonBlank | lib/src/main/java/com/mammb/code/jsonstruct/lang/CharBufferReader.java:90-96 | the index of the first element that is not a space, tab, CR or LF: all the elements before it are |
| CharBufferReaders.LengthAsWrittenMissesStepBack | lib/src/main/java/com/mammb/code/jsonstruct/lang/CharBufferReader.java:103-106 | after reading 'a' from "ab" and stepping back, length(letter) as written is 0, while two letters are pending |
| CharBufferReaders.CharBufferReader.Of | lib/src/main/java/com/mammb/code/jsonstruct/lang/CharBufferReader.java:55-72 | of(in) starts at position 0 with nothing read and no step-back; the pending chars are the inner reader's |
| CharBufferReaders.CharBufferReader.FillBuffer | lib/src/main/java/com/mammb/code/jsonstruct/lang/CharBufferReader.java:173-186 | fillBuffer moves the next min(64, remaining) chars of the inner reader into the cache, in order, and changes nothing else |
| CharBufferReaders.CharBufferReader.Read | lib/src/main/java/com/mammb/code/jsonstruct/lang/CharBufferReader.java:76-86 | read returns the next pending char and drops it, or -1 at the end; the position counts every call; the step-back is consumed |
| CharBufferReaders.CharBufferReader.ReadNextChar | lib/src/main/java/com/mammb/code/jsonstruct/lang/CharBufferReader.java:90-96 | readNextChar returns the first pending char that is not a space, tab, CR or LF, or -1, and drops it and the blanks before it |
| CharBufferReaders.CharBufferReader.CountCached | lib/src/main/java/com/mammb/code/jsonstruct/lang/CharBufferReader.java:106-111 | the scan of the cache counts its leading passing chars, and reports whether it stopped inside the cache |
| CharBufferReaders.CharBufferReader.CountInner | lib/src/main/java/com/mammb/code/jsonstruct/lang/CharBufferReader.java:112-119 | the scan of the inner reader counts its leading passing chars and leaves its cursor where it was |
| CharBufferReaders.CharBufferReader.Length | lib/src/main/java/com/mammb/code/jsonstruct/lang/CharBufferReader.java:100-123 | length(until), corrected, is the number of leading pending chars satisfying until; nothing pending changes |
| CharBufferReaders.CharBufferReader.LengthAsWritten | lib/src/main/java/com/mammb/code/jsonstruct/lang/CharBufferReader.java:100-123 | length(until) as written is LengthAsWrittenValue; nothing pending changes |
| CharBufferReaders.CharBufferReader.ReadInto | lib/src/main/java/com/mammb/code/jsonstruct/lang/CharBufferReader.java:127-141 | read(chars, off, len) moves the position by len; it delivers a pending step-back first, then reads the inner reader directly, bypassing the cache |
| CharBufferReaders.CharBufferReader.Skip | lib/src/main/java/com/mammb/code/jsonstruct/lang/CharBufferReader.java:144-146 | skip(n) is n reads: it drops min(n, pending) chars, none when n <= 0, and the position grows by the number of reads |
| CharBufferReaders.CharBufferReader.StepBack | lib/src/main/java/com/mammb/code/jsonstruct/lang/CharBufferReader.java:150-153 | after stepBack the last char read is pending again, once, and the position goes back by one |
| CharBufferReaders.LeadingCountAppend | lib/src/main/java/com/mammb/code/jsonstruct/lang/CharBufferReader.java:106-119 | counting over the cache and then the inner reader is counting over both together |
| Iterate.JavaRem | lib/src/main/java/com/mammb/code/jsonstruct/lang/Iteration.java:69-71 | Java's % truncates toward zero: the result lies in (-b, b), is a % b for a >= 0, and is -((-a) % b) for negative a |
| Iterate.Index | lib/src/main/java/com/mammb/code/jsonstruct/lang/Iteration.java:81-86 | an entry reports its own index; the empty iteration reports -1 |
| Iterate.HasNext | lib/src/main/java/com/mammb/code/jsonstruct/lang/Iteration.java:81-86 | the empty iteration has no next entry |
| Iterate.IsFirst | lib/src/main/java/com/mammb/code/jsonstruct/lang/Iteration.java:42-44 | an entry is first exactly at index 0; the empty iteration is not first |
| Iterate.IsLast | lib/src/main/java/com/mammb/code/jsonstruct/lang/Iteration.java:51-53 | an entry is last exactly when nothing follows; the empty iteration is last |
| Iterate.IsEven | lib/src/main/java/com/mammb/code/jsonstruct/lang/Iteration.java:69-71 | for an index that is not negative, even is the usual parity; with Java's remainder a negative index is even exactly when its magnitude is, so the empty iteration (-1) is not even |
| Iterate.IsOdd | lib/src/main/java/com/mammb/code/jsonstruct/lang/Iteration.java:60-62 | for an index that is not negative, odd means remainder 1; the empty iteration counts as odd |
| Iterate.EmptyIteration | lib/src/main/java/com/mammb/code/jsonstruct/lang/Iteration.java:74-86 | the empty iteration has index -1 and no next; it is last, not first, odd and not even |
| Iterate.EntriesOf | lib/src/main/java/com/mammb/code/jsonstruct/lang/Iterate.java:77-97 | one entry per item, in order, with index i; first exactly at 0, last exactly at the end, even exactly when i % 2 is 0, odd and even alternating |
| Iterate.EntryIterator.constructor | lib/src/main/java/com/mammb/code/jsonstruct/lang/Iterate.java:81-83 | a new iterator starts at index 0 over the items |
| Iterate.EntryIterator.HasNextItem | lib/src/main/java/com/mammb/code/jsonstruct/lang/Iterate.java:85-88 | hasNext holds exactly while items remain |
| Iterate.EntryIterator.Next | lib/src/main/java/com/mammb/code/jsonstruct/lang/Iterate.java:90-94 | next hands out entry number index of EntriesOf and advances; past the end it is NoSuchElementException |
| Iterate.Walk | lib/src/main/java/com/mammb/code/jsonstruct/lang/Iterate.java:77-97 | a for-each loop over the iterator sees exactly EntriesOf(items) |
| Tokens.Of | lib/src/main/java/com/mammb/code/jsonstruct/parser/Token.java:41-55 | Token.of gives the singleton of the requested type for every type but STRING and NUMBER, and IllegalArgumentException for those two |
| Tokens.Int64 | lib/src/main/java/com/mammb/code/jsonstruct/parser/Token.java:138-142 | Java long arithmetic wraps: the result is a long, and x itself when x is one |
| Tokens.Pow10 | lib/src/main/java/com/mammb/code/jsonstruct/parser/Token.java:121 | ten to the n is positive |
| Tokens.IntFold | lib/src/main/java/com/mammb/code/jsonstruct/parser/Token.java:122-125 | the digit loop in int arithmetic always yields an int |
| Tokens.LongFold | lib/src/main/java/com/mammb/code/jsonstruct/parser/Token.java:138-141 | the digit loop in long arithmetic always yields a long |
| Tokens.DecimalBound | lib/src/main/java/com/mammb/code/jsonstruct/parser/Token.java:121 | a string of n digits denotes a value in [0, 10^n) |
| Tokens.IntFoldExact | lib/src/main/java/com/mammb/code/jsonstruct/parser/Token.java:121-125 | up to 9 digits, the int loop never wraps and yields the decimal value |
| Tokens.LongFoldExact | lib/src/main/java/com/mammb/code/jsonstruct/parser/Token.java:137-141 | up to 18 digits, the long loop never wraps and yields the decimal value |
| Tokens.Pow10Values | lib/src/main/java/com/mammb/code/jsonstruct/parser/Token.java:121 | the bounds of the two fast paths, 10^8 and 10^17 |
| Tokens.Pow10Monotone | lib/src/main/java/com/mammb/code/jsonstruct/parser/Token.java:121 | powers of ten grow with the exponent |
| Tokens.IntDigitLoop | lib/src/main/java/com/mammb/code/jsonstruct/parser/Token.java:122-125 | the loop of getInt computes IntFold of the digits after the sign |
| Tokens.LongDigitLoop | lib/src/main/java/com/mammb/code/jsonstruct/parser/Token.java:138-141 | the loop of getLong computes LongFold of the digits after the sign |
| Tokens.NumToken.constructor | lib/src/main/java/com/mammb/code/jsonstruct/parser/Token.java:109-114 | a number token holds its source and flags, with nothing cached |
| Tokens.NumToken.Chars | lib/src/main/java/com/mammb/code/jsonstruct/parser/Token.java:154-162 | chars() is memoised: the first call copies the source range and caches it; every later call returns the cached chars |
| Tokens.NumToken.GetInt | lib/src/main/java/com/mammb/code/jsonstruct/parser/Token.java:116-130 | getInt takes the digit loop exactly on IntFastPath, never with a fraction or exponent; there it yields the value of a plain integer lexeme |
| Tokens.NumToken.GetLong | lib/src/main/java/com/mammb/code/jsonstruct/parser/Token.java:132-146 | getLong takes the digit loop exactly on LongFastPath, never with a fraction or exponent; there it yields the value of a plain integer lexeme |
| Tokens.StrToken.constructor | lib/src/main/java/com/mammb/code/jsonstruct/parser/Token.java:78-81 | a string token holds its source, with nothing cached |
| Tokens.StrToken.Chars | lib/src/main/java/com/mammb/code/jsonstruct/parser/Token.java:83-91 | chars() is memoised: the first call copies the source range; later calls return the same chars |
| Tokens.FastPathsExact | lib/src/main/java/com/mammb/code/jsonstruct/parser/Token.java:117-145 | for a plain integer lexeme, each fast path, sign included, yields its exact value: no int or long overflow |
| JsonValues.Get | lib/src/main/java/com/mammb/code/jsonstruct/parser/JsonObject.java:72-75 | get(name) is the member's value when the name is present, and null otherwise |
| JsonValues.ElementAt | lib/src/main/java/com/mammb/code/jsonstruct/parser/JsonArray.java:32-55 | get(index) is the element at index inside 0 .. size-1, and IndexOutOfBoundsException outside it |
| Lexer.At | lib/src/main/java/com/mammb/code/jsonstruct/parser/Tokenizer.java:276-294 | the reader yields a char, or -1 exactly past the end of the input |
| Lexer.AllHexEach | lib/src/main/java/com/mammb/code/jsonstruct/parser/Tokenizer.java:259-266 | AllHex holds exactly when every char is a hex digit |
| Lexer.HexFold | lib/src/main/java/com/mammb/code/jsonstruct/parser/Tokenizer.java:259-266 | the value of k hex digits read most significant first is below 16^k |
| Lexer.HexFoldSnoc | lib/src/main/java/com/mammb/code/jsonstruct/parser/Tokenizer.java:263 | one more digit shifts the value by four bits and adds the digit, as `(unicode << 4) \| digit` does |
| Lexer.Unescape | lib/src/main/java/com/mammb/code/jsonstruct/parser/Tokenizer.java:251-269 | the escape mapping of the switch: `b t n f r` give 0x08, 0x09, 0x0A, 0x0C and 0x0D, `"`, `\` and `/` stand for themselves, and `u` with four hex digits gives the code unit they spell, consuming one or five chars; it fails exactly on a missing char, any other letter (a syntax error) or a `u` without four hex digits (NumberFormatException) |
| Lexer.QuadValue | lib/src/main/java/com/mammb/code/jsonstruct/parser/Tokenizer.java:259-265 | the four hex digits after `\u`, most significant first, spell digit0·0x1000 + digit1·0x100 + digit2·0x10 + digit3 |
| Lexer.LexString | lib/src/main/java/com/mammb/code/jsonstruct/parser/Tokenizer.java:132-147 | readString yields a string token and consumes at least the closing quote |
| Lexer.LexStringStep | lib/src/main/java/com/mammb/code/jsonstruct/parser/Tokenizer.java:132-147 | one step of readString: end of input is an error, `"` ends the token with the chars so far, `\` adds the unescaped char or propagates its error, a char of 0x20 or more is added as it is, and any lower char is a syntax error |
| Lexer.DigitsEnd | lib/src/main/java/com/mammb/code/jsonstruct/parser/Tokenizer.java:170-173 | the end of the digit run lies between its start and the end of input |
| Lexer.DigitsEndFrom | lib/src/main/java/com/mammb/code/jsonstruct/parser/Tokenizer.java:170-173 | the digit run ends at the first char that is not a digit |
| Lexer.DigitsEndStops | lib/src/main/java/com/mammb/code/jsonstruct/parser/Tokenizer.java:170-173 | the char at the end of the digit run is not a digit |
| Lexer.DigitsEndAll | lib/src/main/java/com/mammb/code/jsonstruct/parser/Tokenizer.java:170-173 | every char the digit run passes over is a digit |
| Lexer.IntegerEnd | lib/src/main/java/com/mammb/code/jsonstruct/parser/Tokenizer.java:166-174 | the integer part takes at least its first digit |
| Lexer.FractionEnd | lib/src/main/java/com/mammb/code/jsonstruct/parser/Tokenizer.java:176-185 | the fraction ends at or after the dot's position |
| Lexer.ExponentDigitsStart | lib/src/main/java/com/mammb/code/jsonstruct/parser/Tokenizer.java:187-194 | the exponent digits start after the mark and the optional sign |
| Lexer.ExponentEnd | lib/src/main/java/com/mammb/code/jsonstruct/parser/Tokenizer.java:187-201 | the exponent ends at or after the mark's position |
| Lexer.LexNumber | lib/src/main/java/com/mammb/code/jsonstruct/parser/Tokenizer.java:153-207 | readNumber's token is exactly the chars it consumed, at least one; its only failure is a syntax error |
| Lexer.LexNumberNoDigit | lib/src/main/java/com/mammb/code/jsonstruct/parser/Tokenizer.java:160-164 | `-` not followed by a digit is a syntax error |
| Lexer.LexNumberNoFractionDigit | lib/src/main/java/com/mammb/code/jsonstruct/parser/Tokenizer.java:176-185 | a `.` with no digit after it is a syntax error |
| Lexer.LexNumberNoExponentDigit | lib/src/main/java/com/mammb/code/jsonstruct/parser/Tokenizer.java:187-201 | an exponent with no digit is a syntax error |
| Lexer.LexNumberToken | lib/src/main/java/com/mammb/code/jsonstruct/parser/Tokenizer.java:153-207 | otherwise the token is the chars up to the end of the exponent, flagged with whether a fraction and an exponent were seen, and the rest of the input follows it |
| Lexer.LexWord | lib/src/main/java/com/mammb/code/jsonstruct/parser/Tokenizer.java:214-244 | readTrue, readFalse and readNull succeed exactly when the rest of the word follows letter for letter, giving the singleton token; otherwise a syntax error |
| Lexer.Lex | lib/src/main/java/com/mammb/code/jsonstruct/parser/Tokenizer.java:107-125 | next() yields a well-formed token and consumes input, except EOF, which comes only at the end of input; a char that is neither blank nor the start of a token is a syntax error |
| Lexer.LexToken | lib/src/main/java/com/mammb/code/jsonstruct/parser/Tokenizer.java:109-123 | the token at a non-blank char consumes input, and a char that starts no token is a syntax error |
| Lexer.LexFirst | lib/src/main/java/com/mammb/code/jsonstruct/parser/Tokenizer.java:109-123 | the first char selects the reading: `"` a string, `t`, `f` and `n` the literal words, a digit or `-` a number |
| Lexer.LexSkipsBlanks | lib/src/main/java/com/mammb/code/jsonstruct/parser/Tokenizer.java:121 | space, tab, CR and LF before a token change nothing |
| Lexer.LeadingZeroEndsInteger | lib/src/main/java/com/mammb/code/jsonstruct/parser/Tokenizer.java:166-168 | a leading 0 ends the integer part: a digit after it is left for the next token |
| Lexer.RunConcat | lib/src/main/java/com/mammb/code/jsonstruct/parser/Tokenizer.java:153-207 | the number recogniser on a + b is its run on a continued on b |
| Lexer.RunDigits | lib/src/main/java/com/mammb/code/jsonstruct/parser/Tokenizer.java:170-173 | a digit run keeps each of the digit states |
| Lexer.RunInteger | lib/src/main/java/com/mammb/code/jsonstruct/parser/Tokenizer.java:160-174 | an optional minus and a digit string, with no digit after a leading 0, reaches Zero or IntDigits |
| Lexer.RunFraction | lib/src/main/java/com/mammb/code/jsonstruct/parser/Tokenizer.java:176-185 | a dot and a non-empty digit run after an integer part reach the fraction state |
| Lexer.RunExponent | lib/src/main/java/com/mammb/code/jsonstruct/parser/Tokenizer.java:187-201 | an exponent mark, an optional sign and a non-empty digit run reach the exponent state |
| Lexer.IntegerPart | lib/src/main/java/com/mammb/code/jsonstruct/parser/Tokenizer.java:160-174 | the integer part readNumber takes is digits and reaches Zero or IntDigits |
| Lexer.FractionPart | lib/src/main/java/com/mammb/code/jsonstruct/parser/Tokenizer.java:176-185 | the integer and fraction parts readNumber takes reach Zero, IntDigits or FracDigits |
| Lexer.ExponentPart | lib/src/main/java/com/mammb/code/jsonstruct/parser/Tokenizer.java:187-200 | an exponent mark with at least one digit after it (and an optional sign) completes a number that ends in a digit into a JSON number |
| Lexer.LexNumberSound | lib/src/main/java/com/mammb/code/jsonstruct/parser/Tokenizer.java:153-207 | every number lexeme readNumber accepts is a number as section 6 of RFC 8259 defines it |
| Lexer.LexNumberPlain | lib/src/main/java/com/mammb/code/jsonstruct/parser/Token.java:121-145 | an accepted lexeme has neither fraction nor exponent exactly when it is a plain integer, so every lexeme with either takes the BigDecimal path |
| Tokenizers.BadQuad | lib/src/main/java/com/mammb/code/jsonstruct/parser/Tokenizer.java:259-264 | a char among the four after `u` that is not a hex digit spoils the escape |
| Tokenizers.PrefixMismatch | lib/src/main/java/com/mammb/code/jsonstruct/parser/Tokenizer.java:214-244 | a mismatch at any letter, or the end of input before it, means the word is not there |
| Tokenizers.Tokenizer.constructor | lib/src/main/java/com/mammb/code/jsonstruct/parser/Tokenizer.java:55-61 | a new tokenizer is at line 1, column 0, with nothing pushed back, and the reader's chars pending |
| Tokenizers.Tokenizer.Read | lib/src/main/java/com/mammb/code/jsonstruct/parser/Tokenizer.java:276-294 | read returns the pushed-back char first, then the reader's next char or -1; a reader `\n` moves to the next line at column 0, any other reader char moves one column on, and a pushed-back char moves neither; both counters are Java ints |
| Tokenizers.Tokenizer.Next | lib/src/main/java/com/mammb/code/jsonstruct/parser/Tokenizer.java:107-125 | next() returns Lex's token of the pending input and leaves Lex's rest pending, or fails with Lex's failure |
| Tokenizers.Tokenizer.Dispatch | lib/src/main/java/com/mammb/code/jsonstruct/parser/Tokenizer.java:109-123 | the switch of next() on a char that is not blank agrees with Lex |
| Tokenizers.Tokenizer.Punctuation | lib/src/main/java/com/mammb/code/jsonstruct/parser/Tokenizer.java:111-123 | the one-char tokens and EOF are the singletons; any other char is a syntax error |
| Tokenizers.Tokenizer.ReadWord | lib/src/main/java/com/mammb/code/jsonstruct/parser/Tokenizer.java:214-244 | readTrue, readFalse and readNull agree with LexWord |
| Tokenizers.Tokenizer.ReadString | lib/src/main/java/com/mammb/code/jsonstruct/parser/Tokenizer.java:132-147 | readString returns exactly LexString's token, holding the unescaped chars, or its failure |
| Tokenizers.Tokenizer.StringChar | lib/src/main/java/com/mammb/code/jsonstruct/parser/Tokenizer.java:135-144 | one turn of the readString loop: the closing quote ends it, an escape or a plain char adds one char, and the result of LexString is unchanged |
| Tokenizers.Tokenizer.Keep | lib/src/main/java/com/mammb/code/jsonstruct/parser/Tokenizer.java:139-141 | ca.add adds one char to the token being read, and leaves the chars before it |
| Tokenizers.Tokenizer.Unescape | lib/src/main/java/com/mammb/code/jsonstruct/parser/Tokenizer.java:251-269 | unescape agrees with Lexer.Unescape, value and consumed input |
| Tokenizers.Tokenizer.ReadQuad | lib/src/main/java/com/mammb/code/jsonstruct/parser/Tokenizer.java:259-266 | the four digits of `\u` give their value, or NumberFormatException when one of them is not a hex digit |
| Tokenizers.Tokenizer.Digits | lib/src/main/java/com/mammb/code/jsonstruct/parser/Tokenizer.java:170-173 | the digit loop adds exactly the digit run and stops at its end |
| Tokenizers.Tokenizer.ReadNumber | lib/src/main/java/com/mammb/code/jsonstruct/parser/Tokenizer.java:153-207 | readNumber returns exactly LexNumber's token, or the syntax error |
| Tokenizers.Tokenizer.NumberTail | lib/src/main/java/com/mammb/code/jsonstruct/parser/Tokenizer.java:176-207 | fraction, exponent and push-back after the integer part agree with LexNumber |
| Tokenizers.Tokenizer.PushBack | lib/src/main/java/com/mammb/code/jsonstruct/parser/Tokenizer.java:203 | the char that ended the number is pending again, in front of the rest |
| Tokenizers.Tokenizer.IntegerPart | lib/src/main/java/com/mammb/code/jsonstruct/parser/Tokenizer.java:160-174 | the optional minus must be followed by a digit; a 0 alone, or a digit run, is taken |
| Tokenizers.Tokenizer.FractionPart | lib/src/main/java/com/mammb/code/jsonstruct/parser/Tokenizer.java:176-185 | the fraction is taken exactly when a `.` comes, and fails exactly when no digit follows it |
| Tokenizers.Tokenizer.ExponentPart | lib/src/main/java/com/mammb/code/jsonstruct/parser/Tokenizer.java:187-201 | the exponent is taken exactly at `e` or `E`, and fails exactly when no digit follows the optional sign |
| Tokenizers.Tokenizer.ExponentSign | lib/src/main/java/com/mammb/code/jsonstruct/parser/Tokenizer.java:187-194 | after the `e` or `E` is read, one optional `+` or `-` is taken, and the digits start exactly where the exponent grammar says |
| Parsers.LexConsumes | lib/src/main/java/com/mammb/code/jsonstruct/parser/Tokenizer.java:107-125 | every token but the end of input takes at least one char off the input, so the parse loops end |
| Parsers.ScalarOf | lib/src/main/java/com/mammb/code/jsonstruct/parser/Parser.java:114-124 | a token stands for a value inside a structure exactly when it is a string, a number, `true`, `false` or `null`; a string or number keeps its chars |
| Parsers.Keying | lib/src/main/java/com/mammb/code/jsonstruct/parser/Parser.java:189-194 | a value is accepted exactly when a member name is pending, and keyed by that name; otherwise a JsonParseException |
| Parsers.Pending | lib/src/main/java/com/mammb/code/jsonstruct/parser/Parser.java:104-108 | the pending member name survives exactly when the previous token is a colon |
| Parsers.ObjectLoop | lib/src/main/java/com/mammb/code/jsonstruct/parser/Parser.java:101-142 | parseObject's loop on the unread input; a result leaves strictly less input unread; the end of input inside an object is an error |
| Parsers.ObjectStep | lib/src/main/java/com/mammb/code/jsonstruct/parser/Parser.java:109-140 | the switch of parseObject on one token; a result leaves no more input than the token's rest |
| Parsers.ArrayLoop | lib/src/main/java/com/mammb/code/jsonstruct/parser/Parser.java:150-181 | parseArray's loop on the unread input; a result leaves strictly less input unread |
| Parsers.ArrayStep | lib/src/main/java/com/mammb/code/jsonstruct/parser/Parser.java:154-179 | the switch of parseArray on one token; a result leaves no more input than the token's rest |
| Parsers.ParseDocument | lib/src/main/java/com/mammb/code/jsonstruct/parser/Parser.java:85-93 | a lexing failure is passed on; the end of input gives null; a first token other than `{`, `[` or the end is a syntax error; the value is an object exactly when the first token is `{` and an array exactly when it is `[` |
| Parsers.ObjectLoopFirst | lib/src/main/java/com/mammb/code/jsonstruct/parser/Parser.java:103-109 | one turn of parseObject's loop: a lexing failure, the end of input (error), or the switch on the token read, with the name dropped unless the previous token is a colon |
| Parsers.ArrayLoopFirst | lib/src/main/java/com/mammb/code/jsonstruct/parser/Parser.java:151-154 | one turn of parseArray's loop: a lexing failure, the end of input (error), or the switch on the token read |
| Parsers.ParseBlank | lib/src/main/java/com/mammb/code/jsonstruct/parser/Parser.java:85-93 | input of blanks only, the empty input included, parses to null with nothing left |
| Parsers.LexPunct | lib/src/main/java/com/mammb/code/jsonstruct/parser/Tokenizer.java:107-125 | `{`, `}`, `[` and `]` at the start of the input are tokens by themselves |
| Parsers.TrailingAfterArray | lib/src/main/java/com/mammb/code/jsonstruct/parser/Parser.java:85-93 | `[]` parses to the empty array whatever follows, and what follows is left unread |
| Parsers.TrailingAfterObject | lib/src/main/java/com/mammb/code/jsonstruct/parser/Parser.java:85-93 | `{}` parses to the empty object whatever follows, and what follows is left unread |
| Parsers.ArrayLoopAppends | lib/src/main/java/com/mammb/code/jsonstruct/parser/Parser.java:150-181 | parseArray appends to the elements already there in document order, and what it reads does not depend on them |
| Parsers.ArrayStepAppends | lib/src/main/java/com/mammb/code/jsonstruct/parser/Parser.java:154-179 | the same for one turn of the loop |
| Parsers.AddThenAppend | lib/src/main/java/com/mammb/code/jsonstruct/parser/Parser.java:155-168 | the same after one add |
| Parsers.ObjectLoopOverrides | lib/src/main/java/com/mammb/code/jsonstruct/parser/Parser.java:101-142 | parseObject's members are put over the members already in the object: the result is the old object overridden by the members read |
| Parsers.ObjectStepOverrides | lib/src/main/java/com/mammb/code/jsonstruct/parser/Parser.java:109-140 | the same for one turn of the loop |
| Parsers.PutThenOverride | lib/src/main/java/com/mammb/code/jsonstruct/parser/Parser.java:110-124 | the same after one put |
| Parsers.DuplicateKeyKeepsLater | lib/src/main/java/com/mammb/code/jsonstruct/parser/Parser.java:110-124 | when a name occurs twice, the object keeps the value read later |
| Parsers.ColonTakesName | lib/src/main/java/com/mammb/code/jsonstruct/parser/Parser.java:126-129 | a colon right after a string makes that string the pending name; a colon after anything else is a syntax error |
| Parsers.ValueUnderPendingName | lib/src/main/java/com/mammb/code/jsonstruct/parser/Parser.java:104-125 | a scalar value is put under the pending name and nowhere else; without a pending name a string is skipped and any other value is a syntax error |
| Parsers.NestedNeedsName | lib/src/main/java/com/mammb/code/jsonstruct/parser/Parser.java:110-113 | a nested object or array without a pending name is a syntax error |
| Parsers.ObjectComma | lib/src/main/java/com/mammb/code/jsonstruct/parser/Parser.java:130-135 | a comma in an object is a syntax error at the start, after `{`, `[`, `:` or `,`, or while a name is pending, and is skipped anywhere else |
| Parsers.ArrayComma | lib/src/main/java/com/mammb/code/jsonstruct/parser/Parser.java:169-174 | a comma in an array is a RuntimeException at the start or after `{`, `[` or `,`, and is skipped anywhere else |
| Parsers.UnexpectedInStructure | lib/src/main/java/com/mammb/code/jsonstruct/parser/Parser.java:136-139 | the end of input inside a structure, `]` in an object, and `}` or `:` in an array are syntax errors |
| Parsers.Parser.constructor | lib/src/main/java/com/mammb/code/jsonstruct/parser/Parser.java:45-47 | a new parser has no current and no previous token |
| Parsers.Parser.Parse | lib/src/main/java/com/mammb/code/jsonstruct/parser/Parser.java:85-93 | parse() returns ParseDocument's value of the unread input and leaves its rest unread, or fails with its failure |
| Parsers.Parser.Advance | lib/src/main/java/com/mammb/code/jsonstruct/parser/Parser.java:104-105 | prev takes curr, and curr the next token Lex reads, which leaves Lex's rest unread |
| Parsers.Parser.ParseObject | lib/src/main/java/com/mammb/code/jsonstruct/parser/Parser.java:101-142 | parseObject returns ObjectLoop's members, leaves its rest unread with `}` as the current token, or fails as ObjectLoop does |
| Parsers.Parser.ObjectPass | lib/src/main/java/com/mammb/code/jsonstruct/parser/Parser.java:103-109 | one turn of the loop either goes on in a state whose ObjectLoop is the same, with less input unread, or ends as ObjectLoop does |
| Parsers.Parser.ObjectToken | lib/src/main/java/com/mammb/code/jsonstruct/parser/Parser.java:109-140 | the switch on one token goes on or ends exactly as ObjectStep says |
| Parsers.Parser.ParseArray | lib/src/main/java/com/mammb/code/jsonstruct/parser/Parser.java:150-181 | parseArray returns ArrayLoop's elements, leaves its rest unread with `]` as the current token, or fails as ArrayLoop does |
| Parsers.Parser.ArrayPass | lib/src/main/java/com/mammb/code/jsonstruct/parser/Parser.java:151-154 | one turn of the loop either goes on in a state whose ArrayLoop is the same, with less input unread, or ends as ArrayLoop does |
| Parsers.Parser.ArrayToken | lib/src/main/java/com/mammb/code/jsonstruct/parser/Parser.java:154-179 | the switch on one token goes on or ends exactly as ArrayStep says |
| PrettyWriters.DriveAppend | lib/src/main/java/com/mammb/code/jsonstruct/JsonPrettyWriter.java:154-160 | appending a + b char by char is appending a, then b from the state a left |
| PrettyWriters.DriveErrPrefix | lib/src/main/java/com/mammb/code/jsonstruct/JsonPrettyWriter.java:154-160 | an exception on a prefix ends the whole append with that exception |
| PrettyWriters.NewLine | lib/src/main/java/com/mammb/code/jsonstruct/JsonPrettyWriter.java:122 | a line break succeeds exactly for a non-negative level and is a line feed then the indent repeated level times; a negative level throws IllegalArgumentException |
| PrettyWriters.IndentOf | lib/src/main/java/com/mammb/code/jsonstruct/JsonPrettyWriter.java:48-51 | the indent string is that many spaces; a negative size throws IllegalArgumentException |
| PrettyWriters.Step | lib/src/main/java/com/mammb/code/jsonstruct/JsonPrettyWriter.java:108-144 | every char, when it is appended, becomes the previous char |
| PrettyWriters.Run | lib/src/main/java/com/mammb/code/jsonstruct/JsonPrettyWriter.java:147-160 | append(csq) of nothing changes nothing; its only exception is IllegalArgumentException, from a negative level; on success the last char appended is the previous char |
| PrettyWriters.DriveStepper | lib/src/main/java/com/mammb/code/jsonstruct/JsonPrettyWriter.java:108-160 | the per-char steps throw only IllegalArgumentException and leave the last char as the previous one |
| PrettyWriters.RangeRun | lib/src/main/java/com/mammb/code/jsonstruct/JsonPrettyWriter.java:154-160 | an empty range appends nothing; a non-empty range that succeeds lies inside csq and leaves its last char as the previous one; failures are IndexOutOfBoundsException or IllegalArgumentException |
| PrettyWriters.RangeStepErr | lib/src/main/java/com/mammb/code/jsonstruct/JsonPrettyWriter.java:154-160 | an exception at index i ends append(csq, start, end) with that exception |
| PrettyWriters.RangeAtEnd | lib/src/main/java/com/mammb/code/jsonstruct/JsonPrettyWriter.java:155-158 | a range that reaches the end of csq before `end` throws IndexOutOfBoundsException after appending what is there |
| PrettyWriters.RangeDone | lib/src/main/java/com/mammb/code/jsonstruct/JsonPrettyWriter.java:155-158 | a range inside csq appends its chars in order |
| PrettyWriters.RangeWhole | lib/src/main/java/com/mammb/code/jsonstruct/JsonPrettyWriter.java:147-151 | append(csq) is append(csq, 0, csq.length()) |
| PrettyWriters.RangePastEnd | lib/src/main/java/com/mammb/code/jsonstruct/JsonPrettyWriter.java:155-158 | a range that runs past the end of csq throws |
| PrettyWriters.InkAppend | lib/src/main/java/com/mammb/code/jsonstruct/JsonPrettyWriter.java:108-144 | the non-blank chars of a + b are those of a, then those of b |
| PrettyWriters.InkNewLine | lib/src/main/java/com/mammb/code/jsonstruct/JsonPrettyWriter.java:122 | a line break and its indentation add no non-blank char |
| PrettyWriters.StepInk | lib/src/main/java/com/mammb/code/jsonstruct/JsonPrettyWriter.java:108-144 | one appended char adds exactly its own non-blank chars: the writer inserts only line feeds, indentation and the space after a colon, and drops only spaces |
| PrettyWriters.RunInk | lib/src/main/java/com/mammb/code/jsonstruct/JsonPrettyWriter.java:108-160 | the non-blank chars of the output are the non-blank chars of the input, in order |
| PrettyWriters.StepFails | lib/src/main/java/com/mammb/code/jsonstruct/JsonPrettyWriter.java:119-128 | from a non-negative level, one char throws exactly when it takes the level below 0, and otherwise moves the level by +1 for `{` `[`, -1 for `}` `]` |
| PrettyWriters.RunLevel | lib/src/main/java/com/mammb/code/jsonstruct/JsonPrettyWriter.java:108-160 | from a non-negative level, append throws exactly when some prefix has more closers than the level allows, and otherwise ends at the start level plus openers minus closers |
| PrettyWriters.QuotedPunctuation | lib/src/main/java/com/mammb/code/jsonstruct/JsonPrettyWriter.java:116-140 | inside quotes a space, a comma and a colon are copied as they are |
| PrettyWriters.OutsideQuotes | lib/src/main/java/com/mammb/code/jsonstruct/JsonPrettyWriter.java:110-118 | outside quotes a space is dropped, and a quote opens a string whatever came before |
| PrettyWriters.EscapedQuote | lib/src/main/java/com/mammb/code/jsonstruct/JsonPrettyWriter.java:110-115 | inside quotes a quote right after a backslash does not close the string |
| PrettyWriters.RunOne | lib/src/main/java/com/mammb/code/jsonstruct/JsonPrettyWriter.java:154-167 | appending one char is one appendInternal |
| PrettyWriters.BracketInString | lib/src/main/java/com/mammb/code/jsonstruct/JsonPrettyWriter.java:119-123 | the string `"{"` breaks the line inside the quotes and leaves the level at 1 |
| PrettyWriters.EscapedBackslash | lib/src/main/java/com/mammb/code/jsonstruct/JsonPrettyWriter.java:110-115 | the string `"\\"` leaves the writer inside quotes after its closing quote |
| PrettyWriters.StepFixed | lib/src/main/java/com/mammb/code/jsonstruct/JsonPrettyWriter.java:108-144 | the corrected appendInternal copies every char inside a string and keeps the level there |
| PrettyWriters.FixedCopy | lib/src/main/java/com/mammb/code/jsonstruct/JsonPrettyWriter.java:141 | inside a string a char other than a quote or a backslash is copied |
| PrettyWriters.FixedPair | lib/src/main/java/com/mammb/code/jsonstruct/JsonPrettyWriter.java:110-115 | inside a string a backslash and the char it escapes are copied, the writer staying inside |
| PrettyWriters.FixedEscapeChar | lib/src/main/java/com/mammb/code/jsonstruct/JsonPrettyWriter.java:108-144 | one escape as JSON writes it is copied inside a string |
| PrettyWriters.FixedEscape | lib/src/main/java/com/mammb/code/jsonstruct/JsonPrettyWriter.java:108-144 | the escaped content of any string is copied, and the writer stays inside the string |
| PrettyWriters.FixedKeepsStrings | lib/src/main/java/com/mammb/code/jsonstruct/JsonPrettyWriter.java:108-144 | the corrected writer copies a whole quoted string unchanged and ends outside quotes at the level it started from |
| PrettyWriters.FixedStepAgrees | lib/src/main/java/com/mammb/code/jsonstruct/JsonPrettyWriter.java:116-141 | outside quotes, on any char but a quote, the corrected writer does what appendInternal does |
| PrettyWriters.FixedAgrees | lib/src/main/java/com/mammb/code/jsonstruct/JsonPrettyWriter.java:147-160 | on text without quotes the correction changes nothing: same exceptions, same output, same level |
| PrettyWriters.UnlayoutAppend | lib/src/main/java/com/mammb/code/jsonstruct/JsonPrettyWriter.java:108-144 | removing the layout of a + b removes that of a, then that of b from the place (outside a string, inside, after a backslash) a ends at |
| PrettyWriters.BlankUnlayout | lib/src/main/java/com/mammb/code/jsonstruct/JsonPrettyWriter.java:122 | spaces and line feeds outside strings leave nothing and stay outside strings |
| PrettyWriters.BlankRepeat | lib/src/main/java/com/mammb/code/jsonstruct/JsonPrettyWriter.java:122 | the indentation repeated is only spaces and line feeds |
| PrettyWriters.BlankNewLine | lib/src/main/java/com/mammb/code/jsonstruct/JsonPrettyWriter.java:122 | a line break with its indentation is only spaces and line feeds |
| PrettyWriters.UnlayoutLead | lib/src/main/java/com/mammb/code/jsonstruct/JsonPrettyWriter.java:119-136 | a char that is not layout or a quote, followed by blank text, leaves only the char |
| PrettyWriters.UnlayoutTrail | lib/src/main/java/com/mammb/code/jsonstruct/JsonPrettyWriter.java:124-128 | blank text followed by such a char leaves only the char |
| PrettyWriters.CloserUnlayout | lib/src/main/java/com/mammb/code/jsonstruct/JsonPrettyWriter.java:124-128 | a line break then a closer leaves the closer |
| PrettyWriters.LeadUnlayout | lib/src/main/java/com/mammb/code/jsonstruct/JsonPrettyWriter.java:119-136 | an opener or a comma then a line break leaves the char |
| PrettyWriters.ColonUnlayout | lib/src/main/java/com/mammb/code/jsonstruct/JsonPrettyWriter.java:135-140 | a colon and the space after it leave the colon |
| PrettyWriters.StepLayoutOut | lib/src/main/java/com/mammb/code/jsonstruct/JsonPrettyWriter.java:119-140 | outside strings the corrected writer writes an opener then a deeper break, a break then a closer (from a level of at least 1), a comma then a break, and a colon then a space, staying outside strings |
| PrettyWriters.StepCloser | lib/src/main/java/com/mammb/code/jsonstruct/JsonPrettyWriter.java:124-128 | outside strings a closer, with its layout removed, is the closer alone |
| PrettyWriters.StepLayoutChar | lib/src/main/java/com/mammb/code/jsonstruct/JsonPrettyWriter.java:119-140 | outside strings each layout char, with its layout removed, is the char alone, and the writer stays outside strings |
| PrettyWriters.StepUnlayout | lib/src/main/java/com/mammb/code/jsonstruct/JsonPrettyWriter.java:108-144 | one step of the corrected writer appends its char up to layout, and moves the place as the char does |
| PrettyWriters.RunUnlayout | lib/src/main/java/com/mammb/code/jsonstruct/JsonPrettyWriter.java:108-160 | the corrected writer only adds and drops layout: its output without layout is its input without layout, and it ends at the place its input ends at |
| PrettyWriters.UnlayoutNoLF | lib/src/main/java/com/mammb/code/jsonstruct/JsonPrettyWriter.java:108-144 | on text without line feeds outside strings, removing the layout only removes the spaces outside strings |
| PrettyWriters.FixedLayoutOnly | lib/src/main/java/com/mammb/code/jsonstruct/JsonPrettyWriter.java:108-160 | layout round trip of the corrected writer: on compact input (no line feeds outside strings), removing the line feeds, indentation and spaces after colons it inserts gives back the input without its spaces outside strings |
| PrettyWriters.StepInStep | lib/src/main/java/com/mammb/code/jsonstruct/JsonPrettyWriter.java:108-144 | on a char a plain string allows, the writer as written and the corrected one fail together and write the same |
| PrettyWriters.RunInStep | lib/src/main/java/com/mammb/code/jsonstruct/JsonPrettyWriter.java:108-160 | on text whose strings hold no bracket and no backslash, the writer as written is the corrected one |
| PrettyWriters.LayoutOnly | lib/src/main/java/com/mammb/code/jsonstruct/JsonPrettyWriter.java:108-160 | layout round trip of the writer as written, on compact input whose strings hold no bracket and no backslash |
| PrettyLayouts.NewLineBreak | lib/src/main/java/com/mammb/code/jsonstruct/JsonPrettyWriter.java:119-134 | a line break at a level of at least 0 is a line feed followed by the indentation that many times |
| PrettyLayouts.LaysAppend | lib/src/main/java/com/mammb/code/jsonstruct/JsonPrettyWriter.java:108-160 | laying out text is compositional: a layout of a followed by one of b, from where a leaves the writer, lays out a + b |
| PrettyLayouts.LaysOpen | lib/src/main/java/com/mammb/code/jsonstruct/JsonPrettyWriter.java:119-123 | outside strings an opener is written then a line break one level deeper |
| PrettyLayouts.LaysClose | lib/src/main/java/com/mammb/code/jsonstruct/JsonPrettyWriter.java:124-128 | outside strings a closer is written after a line break one level up |
| PrettyLayouts.LaysComma | lib/src/main/java/com/mammb/code/jsonstruct/JsonPrettyWriter.java:129-134 | outside strings a comma is followed by a line break at the same level |
| PrettyLayouts.LaysColon | lib/src/main/java/com/mammb/code/jsonstruct/JsonPrettyWriter.java:135-140 | outside strings a colon is followed by one space |
| PrettyLayouts.LaysLiteral | lib/src/main/java/com/mammb/code/jsonstruct/JsonPrettyWriter.java:141-143 | a number or `true`/`false`/`null` is written unchanged |
| PrettyLayouts.QuotingRun | lib/src/main/java/com/mammb/code/jsonstruct/JsonPrettyWriter.java:108-144 | inside a string, text without brackets and without a backslash before a quote is written unchanged |
| PrettyLayouts.EscapeCharSafe | lib/src/main/java/com/mammb/code/jsonstruct/convert/StringifyBuilder.java:195-219 | an escaped char that is not a bracket or a backslash is safe to write inside a string and does not end with a backslash |
| PrettyLayouts.QuotingEscape | lib/src/main/java/com/mammb/code/jsonstruct/JsonPrettyWriter.java:108-144 | inside a string, the escape of plain text is written unchanged and leaves the writer inside the string at the same level |
| PrettyLayouts.LaysString | lib/src/main/java/com/mammb/code/jsonstruct/JsonPrettyWriter.java:108-144 | a quoted plain string is written unchanged |
| PrettyLayouts.LaysStructure | lib/src/main/java/com/mammb/code/jsonstruct/JsonPrettyWriter.java:119-128 | an array or object is written as opener, deeper break, its content, break back, closer |
| PrettyLayouts.LaysSeparated | lib/src/main/java/com/mammb/code/jsonstruct/JsonPrettyWriter.java:129-134 | items separated by a comma get a line break after the comma |
| PrettyLayouts.LaysItems | lib/src/main/java/com/mammb/code/jsonstruct/JsonPrettyWriter.java:108-160 | the compact text of array items is laid out as the pretty items, one per line |
| PrettyLayouts.LaysMember | lib/src/main/java/com/mammb/code/jsonstruct/JsonPrettyWriter.java:108-160 | the compact text of an object member is laid out as name, colon, space, pretty value |
| PrettyLayouts.LaysMembers | lib/src/main/java/com/mammb/code/jsonstruct/JsonPrettyWriter.java:108-160 | the compact text of object members is laid out as the pretty members, one per line |
| PrettyLayouts.LaysDoc | lib/src/main/java/com/mammb/code/jsonstruct/JsonPrettyWriter.java:108-160 | the writer lays any plain JSON document's compact text out as its pretty form: line breaks after openers and commas, indentation by depth, a space after each colon |
| PrettyLayouts.LaysArray | lib/src/main/java/com/mammb/code/jsonstruct/JsonPrettyWriter.java:119-134 | a compact array is laid out as `[`, its items one level deeper and one per line, then `]` on a line at the old level |
| PrettyLayouts.LaysObject | lib/src/main/java/com/mammb/code/jsonstruct/JsonPrettyWriter.java:119-140 | a compact object is laid out as `{`, its members one level deeper and one per line, then `}` on a line at the old level |
| PrettyLayouts.PrettyStringOf | lib/src/main/java/com/mammb/code/jsonstruct/JsonPrettyWriter.java:91-96 | toPrettyString of a plain document's compact text succeeds and is its pretty form |
| PrettyWriterTestCase.TestInputIsCompact | lib/src/test/java/com/mammb/code/jsonstruct/JsonPrettyWriterTest.java:37-54 | the test input is the compact text of the test document |
| PrettyWriterTestCase.PrettyIsExpected | lib/src/test/java/com/mammb/code/jsonstruct/JsonPrettyWriterTest.java:37-54 | the pretty form of the test document is the expected text |
| PrettyWriterTestCase.TestPrettyString | lib/src/test/java/com/mammb/code/jsonstruct/JsonPrettyWriterTest.java:37-54 | testPrettyString: toPrettyString with indent 2 turns the test input into the expected text |
| PrettyWriters.JsonPrettyWriter.constructor | lib/src/main/java/com/mammb/code/jsonstruct/JsonPrettyWriter.java:48-51 | a new writer is at level 0, outside quotes, with previous char 0, over the given peer |
| PrettyWriters.JsonPrettyWriter.AppendInternal | lib/src/main/java/com/mammb/code/jsonstruct/JsonPrettyWriter.java:108-144 | appendInternal moves the fields and extends the peer as Step says; when the repeat throws, the level has moved and the line feed is already appended |
| PrettyWriters.JsonPrettyWriter.BreakLine | lib/src/main/java/com/mammb/code/jsonstruct/JsonPrettyWriter.java:122 | appends a line feed and the indentation; for a negative level it throws after the line feed |
| PrettyWriters.JsonPrettyWriter.AppendRange | lib/src/main/java/com/mammb/code/jsonstruct/JsonPrettyWriter.java:154-160 | append(csq, start, end) ends in the state and with the output RangeRun gives, or throws its exception |
| PrettyWriters.JsonPrettyWriter.Append | lib/src/main/java/com/mammb/code/jsonstruct/JsonPrettyWriter.java:147-151 | append(csq) ends in the state and with the output Run gives, or throws its exception |
| PrettyWriters.ToPrettyString | lib/src/main/java/com/mammb/code/jsonstruct/JsonPrettyWriter.java:91-100 | toPrettyString is the output of a fresh writer over an empty builder, or the exception of the indent or of append |
| PrettyWriters.PrettyString | lib/src/main/java/com/mammb/code/jsonstruct/JsonPrettyWriter.java:91-100 | the result fails exactly for a negative indent or a text some prefix of which has more closing brackets than opening ones (brackets count wherever they stand), always with IllegalArgument; otherwise it keeps every character of the input but the spaces and line feeds, in order |
| StringifyBuilders.HexCharValue | lib/src/main/java/com/mammb/code/jsonstruct/convert/StringifyBuilder.java:215 | every hex digit toHexString writes reads back as its value |
| StringifyBuilders.ToHexString | lib/src/main/java/com/mammb/code/jsonstruct/convert/StringifyBuilder.java:215 | Integer.toHexString writes at least one digit |
| StringifyBuilders.Quad | lib/src/main/java/com/mammb/code/jsonstruct/convert/StringifyBuilder.java:215-217 | the last four chars of `"000" + toHexString(c)` are always four chars |
| StringifyBuilders.EscapeChar | lib/src/main/java/com/mammb/code/jsonstruct/convert/StringifyBuilder.java:195-219 | a char is written as itself exactly when it needs no escape; otherwise its escape is two to six chars starting with a backslash |
| StringifyBuilders.EscapedLength | lib/src/main/java/com/mammb/code/jsonstruct/convert/StringifyBuilder.java:190-221 | each char is escaped to one to six chars |
| StringifyBuilders.Escape | lib/src/main/java/com/mammb/code/jsonstruct/convert/StringifyBuilder.java:190-221 | the escaped content is at least as long as the input and at most six times as long (EscapeRoundTrip is its partner) |
| StringifyBuilders.EscapeCharUnicode | lib/src/main/java/com/mammb/code/jsonstruct/convert/StringifyBuilder.java:214-218 | a char that is neither copied nor short-escaped is a control char and is written as `\u` and four hex digits |
| StringifyBuilders.EscapeCons | lib/src/main/java/com/mammb/code/jsonstruct/convert/StringifyBuilder.java:190-221 | the first char's escape comes first in the escaped output |
| StringifyBuilders.EscapeSnoc | lib/src/main/java/com/mammb/code/jsonstruct/convert/StringifyBuilder.java:190-221 | the last char's escape comes last: the output is the per-char escapes in input order |
| StringifyBuilders.EscapeStep | lib/src/main/java/com/mammb/code/jsonstruct/convert/StringifyBuilder.java:192-220 | escaping one more char of a prefix appends exactly that char's escape |
| StringifyBuilders.EscapeUnescaped | lib/src/main/java/com/mammb/code/jsonstruct/convert/StringifyBuilder.java:195-205 | a string of chars at or above 0x20 other than `"` and `\` is written unchanged |
| StringifyBuilders.EscapeCharClean | lib/src/main/java/com/mammb/code/jsonstruct/convert/StringifyBuilder.java:207-219 | no escape contains a raw char below 0x20 |
| StringifyBuilders.EscapeClean | lib/src/main/java/com/mammb/code/jsonstruct/convert/StringifyBuilder.java:190-221 | the escaped output holds no raw char below 0x20 |
| StringifyBuilders.QuadSpelled | lib/src/main/java/com/mammb/code/jsonstruct/convert/StringifyBuilder.java:215-217 | a control char's four digits are two zeros and its two lowercase hex digits |
| StringifyBuilders.QuadReadsBack | lib/src/main/java/com/mammb/code/jsonstruct/convert/StringifyBuilder.java:215-217 | the four digits written for a control char read back as that char |
| StringifyBuilders.ShortReadsBack | lib/src/main/java/com/mammb/code/jsonstruct/parser/Tokenizer.java:251-269 | a two-char escape reads back as the char its letter stands for |
| StringifyBuilders.UnicodeReadsBack | lib/src/main/java/com/mammb/code/jsonstruct/parser/Tokenizer.java:251-269 | a `\u00hh` escape of a control char reads back as that char |
| StringifyBuilders.EscapeCharReadsBack | lib/src/main/java/com/mammb/code/jsonstruct/convert/StringifyBuilder.java:207-219 | the tokenizer's string reading takes each char's escape back to exactly that char |
| StringifyBuilders.EscapeRoundTrip | lib/src/main/java/com/mammb/code/jsonstruct/convert/StringifyBuilder.java:190-221 | round trip: reading what appendStr wrote after the opening quote gives back the original chars and stops right after the closing quote |
| StringifyBuilders.QuotedLexes | lib/src/main/java/com/mammb/code/jsonstruct/convert/StringifyBuilder.java:161-169 | the quoted escaped string lexes back to a string token over the original chars, whatever follows it |
| StringifyBuilders.StringifyBuilder.constructor | lib/src/main/java/com/mammb/code/jsonstruct/convert/StringifyBuilder.java:40-54 | a new builder appends after what its Appendable holds |
| StringifyBuilders.StringifyBuilder.Append | lib/src/main/java/com/mammb/code/jsonstruct/convert/StringifyBuilder.java:91-94 | append(cs) appends the chars as they are |
| StringifyBuilders.StringifyBuilder.AppendChar | lib/src/main/java/com/mammb/code/jsonstruct/convert/StringifyBuilder.java:102-105 | append(ch) appends the char |
| StringifyBuilders.StringifyBuilder.AppendNull | lib/src/main/java/com/mammb/code/jsonstruct/convert/StringifyBuilder.java:112-115 | appendNull appends the literal `null` |
| StringifyBuilders.StringifyBuilder.AppendNum | lib/src/main/java/com/mammb/code/jsonstruct/convert/StringifyBuilder.java:134-137 | appendNum appends a number's text unquoted and unescaped |
| StringifyBuilders.StringifyBuilder.AppendStr | lib/src/main/java/com/mammb/code/jsonstruct/convert/StringifyBuilder.java:145-169 | appendStr appends `null` for a null reference, and otherwise the escaped chars between quotes |
| StringifyBuilders.StringifyBuilder.AppendEscOn | lib/src/main/java/com/mammb/code/jsonstruct/convert/StringifyBuilder.java:190-221 | appendEscOn appends exactly the per-char escapes of its input, in order |
| StringifyBuilders.StringifyBuilder.AppendChunk | lib/src/main/java/com/mammb/code/jsonstruct/convert/StringifyBuilder.java:193-219 | one turn of the loop appends the escapes of the next run of plain chars and of the char that ends it, and moves on |
| StringifyBuilders.StringifyBuilder.AppendEscape | lib/src/main/java/com/mammb/code/jsonstruct/convert/StringifyBuilder.java:207-219 | the switch appends the escape of a char that needs one |
| StringifyBuilders.StringifyBuilder.AppendShortEscape | lib/src/main/java/com/mammb/code/jsonstruct/convert/StringifyBuilder.java:208-213 | `"` and `\` get a backslash before them, and \b \f \n \r \t their two-char escapes |
| StringifyBuilders.StringifyBuilder.AppendUnicodeEscape | lib/src/main/java/com/mammb/code/jsonstruct/convert/StringifyBuilder.java:214-218 | any other control char gets `\u` and four hex digits |
| StringifyBuilders.UnescapedRun | lib/src/main/java/com/mammb/code/jsonstruct/convert/StringifyBuilder.java:195-200 | the inner loop stops at the first char that needs an escape or at the end, and the chars it passes escape to themselves |
| JsonPointers.UnescapeAll | lib/src/main/java/com/mammb/code/jsonstruct/parser/JsonPointer.java:43-54 | every piece is unescaped, one token per piece |
| JsonPointers.Unescape | lib/src/main/java/com/mammb/code/jsonstruct/parser/JsonPointer.java:57-61 | a token without `~` is returned as it is, and decoding never lengthens a token (UnescapeEncode is its partner) |
| JsonPointers.RefTokens | lib/src/main/java/com/mammb/code/jsonstruct/parser/JsonPointer.java:43-54 | split always returns at least one token |
| JsonPointers.Encode | lib/src/main/java/com/mammb/code/jsonstruct/parser/JsonPointer.java:57-61 | the RFC 6901 encoding of a member name holds no `/`; its partner is UnescapeEncode |
| JsonPointers.Split | lib/src/main/java/com/mammb/code/jsonstruct/parser/JsonPointer.java:43-54 | the loop of split returns the unescaped pieces of the text between the slashes, in order |
| JsonPointers.SplitStep | lib/src/main/java/com/mammb/code/jsonstruct/parser/JsonPointer.java:48-51 | each turn of the loop adds the unescaped token before the next `/` and resumes after it, so the list plus the tokens of the rest stays the whole token list |
| JsonPointers.Of | lib/src/main/java/com/mammb/code/jsonstruct/parser/JsonPointer.java:31-41 | a pointer is built exactly when the text is empty or starts with `/`, holding the text and its tokens; any other text throws RuntimeException |
| JsonPointers.Token | lib/src/main/java/com/mammb/code/jsonstruct/parser/JsonPointer.java:86-88 | token(index) is the index-th token, and IndexOutOfBoundsException outside 0 .. tokenSize()-1 |
| JsonPointers.TokenSize | lib/src/main/java/com/mammb/code/jsonstruct/parser/JsonPointer.java:90-92 | tokenSize() is one more than the number of slashes in the text |
| JsonPointers.ParseUnsigned | lib/src/main/java/com/mammb/code/jsonstruct/parser/JsonPointer.java:123 | Integer.parseInt on a text without sign, restricted to ASCII digits: it succeeds exactly on ASCII digit strings whose value fits an int, with that value; otherwise NumberFormatException (other Unicode decimal digits are under "Left out") |
| JsonPointers.AsIndex | lib/src/main/java/com/mammb/code/jsonstruct/parser/JsonPointer.java:109-127 | asIndex accepts exactly `-` (as -1) and ASCII digit strings whose value fits an int (as that value); blank tokens, signs and anything else throw RuntimeException |
| JsonPointers.StepInto | lib/src/main/java/com/mammb/code/jsonstruct/parser/JsonPointer.java:69-81 | into an object: defined exactly for a present member, giving its value; into an array: defined exactly for an index asIndex accepts inside the array, giving that element; into a scalar: RuntimeException |
| JsonPointers.Eval | lib/src/main/java/com/mammb/code/jsonstruct/parser/JsonPointer.java:69-82 | no token leaves the value as it is; a token applied to a scalar throws RuntimeException; every failure is RuntimeException or the array's IndexOutOfBoundsException (EvalAppend and EvalFails are its partners) |
| JsonPointers.GetValue | lib/src/main/java/com/mammb/code/jsonstruct/parser/JsonPointer.java:64-84 | getValue follows every token after the first from the structure, one after the other; the root pointer gives the structure itself |
| JsonPointers.StringHash | lib/src/main/java/com/mammb/code/jsonstruct/parser/JsonPointer.java:103-106 | String.hashCode stays an int |
| JsonPointers.HashCode | lib/src/main/java/com/mammb/code/jsonstruct/parser/JsonPointer.java:103-106 | a pointer's hash code is an int |
| JsonPointers.PiecesFirst | lib/src/main/java/com/mammb/code/jsonstruct/parser/JsonPointer.java:48-51 | cutting at the first `/` gives the piece before it, then the pieces after it |
| JsonPointers.PiecesNone | lib/src/main/java/com/mammb/code/jsonstruct/parser/JsonPointer.java:52 | a text without `/` is its only piece |
| JsonPointers.PiecesSnoc | lib/src/main/java/com/mammb/code/jsonstruct/parser/JsonPointer.java:43-54 | a `/` at the end adds one empty piece |
| JsonPointers.PiecesCount | lib/src/main/java/com/mammb/code/jsonstruct/parser/JsonPointer.java:43-54 | the pieces outnumber the slashes by one |
| JsonPointers.TokensAtSlash | lib/src/main/java/com/mammb/code/jsonstruct/parser/JsonPointer.java:48-51 | one turn of split: the token before the next `/`, then the tokens after it |
| JsonPointers.TokensNoSlash | lib/src/main/java/com/mammb/code/jsonstruct/parser/JsonPointer.java:52 | the last turn of split: the rest of the text is the last token |
| JsonPointers.TokenCount | lib/src/main/java/com/mammb/code/jsonstruct/parser/JsonPointer.java:43-54 | the number of tokens is the number of slashes plus one |
| JsonPointers.TrailingSlash | lib/src/main/java/com/mammb/code/jsonstruct/parser/JsonPointer.java:43-54 | a trailing `/` gives a final empty token |
| JsonPointers.UnescapeEmpty | lib/src/main/java/com/mammb/code/jsonstruct/parser/JsonPointer.java:57-61 | a token decodes to the empty string exactly when it is empty |
| JsonPointers.FirstTokenEmpty | lib/src/main/java/com/mammb/code/jsonstruct/parser/JsonPointer.java:34-36 | the first token is empty exactly when the text is empty or starts with `/`, so those are exactly the texts the constructor accepts |
| JsonPointers.UnescapeOrder | lib/src/main/java/com/mammb/code/jsonstruct/parser/JsonPointer.java:59 | `~1` is decoded before `~0`: `~01` decodes to `~1` and `~10` to `/0` |
| JsonPointers.UnescapeEncode | lib/src/main/java/com/mammb/code/jsonstruct/parser/JsonPointer.java:57-61 | decoding inverts the encoding of section 4 of RFC 6901: any member name survives encoding and decoding |
| JsonPointers.NoTildePlain | lib/src/main/java/com/mammb/code/jsonstruct/parser/JsonPointer.java:58 | a token whose encoding has no `~` is its own encoding, so the shortcut for tokens without `~` is sound |
| JsonPointers.EvalAppend | lib/src/main/java/com/mammb/code/jsonstruct/parser/JsonPointer.java:69-82 | resolving a + b resolves a, then b from where a led; a failure in a ends it |
| JsonPointers.EvalFails | lib/src/main/java/com/mammb/code/jsonstruct/parser/JsonPointer.java:70-81 | stepping into a scalar, or into an object without the member, throws RuntimeException |
| JsonPointers.MemberPointer | lib/src/main/java/com/mammb/code/jsonstruct/parser/JsonPointer.java:64-84 | the pointer `/` + the encoded name leads from an object to that member, and fails when it is absent |
| JsonPointers.DecimalText | lib/src/main/java/com/mammb/code/jsonstruct/parser/JsonPointer.java:123 | Integer.toString of a non-negative int is digits that read back as it |
| JsonPointers.IndexPointer | lib/src/main/java/com/mammb/code/jsonstruct/parser/JsonPointer.java:73-75 | the decimal index leads from an array to that element |
| JsonPointers.EqualsHash | lib/src/main/java/com/mammb/code/jsonstruct/parser/JsonPointer.java:95-106 | two built pointers are equal exactly when their texts are, and equal pointers have equal hash codes |
| JsonPointers.Equals | lib/src/main/java/com/mammb/code/jsonstruct/parser/JsonPointer.java:96-101 | pointers equal by text have equal hash codes, as the equals/hashCode contract requires |
| ImportLists.SimpleName | lib/src/main/java/com/mammb/code/jsonstruct/processor/assembly/Imports.java:170-172 | simpleName is the text after the last `.`: it has no `.`, the name is some prefix, a dot and it, and a name without `.` is its own simple name |
| ImportLists.StripStatement | lib/src/main/java/com/mammb/code/jsonstruct/processor/assembly/Imports.java:181-192 | strip never lengthens the text; StripImport is its partner |
| ImportLists.RunEnd | lib/src/main/java/com/mammb/code/jsonstruct/processor/assembly/Imports.java:127-128 | a segment of the split runs up to the next `<`, `>` or `,` or the end |
| ImportLists.Segments | lib/src/main/java/com/mammb/code/jsonstruct/processor/assembly/Imports.java:127-128 | splitting around the delimiters gives non-empty segments, each a single delimiter or free of delimiters; SegmentsConcat is its partner |
| ImportLists.Kept | lib/src/main/java/com/mammb/code/jsonstruct/processor/assembly/Imports.java:129-130 | trimming and dropping blank segments never adds a segment |
| ImportLists.KeptOne | lib/src/main/java/com/mammb/code/jsonstruct/processor/assembly/Imports.java:129-130 | one segment is kept trimmed, or dropped when blank |
| ImportLists.TypePieces | lib/src/main/java/com/mammb/code/jsonstruct/processor/assembly/Imports.java:127-130 | no piece handed on is blank |
| ImportLists.ApplyAll | lib/src/main/java/com/mammb/code/jsonstruct/processor/assembly/Imports.java:126-133 | the stream of pieces succeeds exactly when every piece does, and fails only with IllegalArgumentException |
| ImportLists.ApplyAllNoLineFeed | lib/src/main/java/com/mammb/code/jsonstruct/processor/assembly/Imports.java:126-154 | a shortened type holds no line feed |
| ImportLists.PieceNoLineFeed | lib/src/main/java/com/mammb/code/jsonstruct/processor/assembly/Imports.java:131-154 | one shortened piece holds no line feed |
| ImportLists.Statements | lib/src/main/java/com/mammb/code/jsonstruct/processor/assembly/Imports.java:157-162 | toString's text is empty exactly without names; cut at its line feeds it gives back one `import X;` per name, in order |
| ImportLists.Piece | lib/src/main/java/com/mammb/code/jsonstruct/processor/assembly/Imports.java:131 | a piece fails exactly when it is neither a delimiter nor a segment applySingle accepts |
| ImportLists.Insert | lib/src/main/java/com/mammb/code/jsonstruct/processor/assembly/Imports.java:216 | inserting into a sorted list keeps it strictly sorted and adds exactly the new name |
| ImportLists.WithDot | lib/src/main/java/com/mammb/code/jsonstruct/processor/assembly/Imports.java:86 | addImplicit's prefix always ends in `.`, and a prefix that does is kept as it is |
| ImportLists.Imports.Of | lib/src/main/java/com/mammb/code/jsonstruct/processor/assembly/Imports.java:42-55 | Imports.of() records nothing and has java.lang implicit |
| ImportLists.Imports.OfLiteral | lib/src/main/java/com/mammb/code/jsonstruct/processor/assembly/Imports.java:63-68 | Imports.of(literal) records the stripped non-blank lines, and has java.lang implicit |
| ImportLists.Imports.Marge | lib/src/main/java/com/mammb/code/jsonstruct/processor/assembly/Imports.java:75-77 | marge adds all the names of the other imports |
| ImportLists.Imports.AddImplicit | lib/src/main/java/com/mammb/code/jsonstruct/processor/assembly/Imports.java:85-87 | addImplicit adds the prefix with a trailing `.` |
| ImportLists.Imports.ApplySingle | lib/src/main/java/com/mammb/code/jsonstruct/processor/assembly/Imports.java:141-154 | a blank segment, or one with a space, `;`, a line feed or a delimiter, throws IllegalArgumentException and records nothing; a name without `.` is returned as it is; a qualified name is recorded and shortened to its simple name |
| ImportLists.Imports.ApplyPiece | lib/src/main/java/com/mammb/code/jsonstruct/processor/assembly/Imports.java:131 | a delimiter is kept as it is; any other piece goes through applySingle |
| ImportLists.Imports.ApplyImport | lib/src/main/java/com/mammb/code/jsonstruct/processor/assembly/Imports.java:126-133 | applyImport writes the pieces in order, delimiters kept and names shortened, up to the first failure, and records the names ApplyAll records |
| ImportLists.Imports.Apply | lib/src/main/java/com/mammb/code/jsonstruct/processor/assembly/Imports.java:95-97 | apply is applyImport on the stripped name |
| ImportLists.Imports.Add | lib/src/main/java/com/mammb/code/jsonstruct/processor/assembly/Imports.java:104-106 | add applies every stripped non-blank line in order, up to a failure, and records what those lines record |
| ImportLists.Imports.Normalize | lib/src/main/java/com/mammb/code/jsonstruct/processor/assembly/Imports.java:209-217 | normalize lists the recorded non-blank names under no implicit prefix, strictly sorted |
| ImportLists.Imports.ToString | lib/src/main/java/com/mammb/code/jsonstruct/processor/assembly/Imports.java:157-162 | toString is one `import X;` line per listed name, in sorted order, joined by newlines |
| ImportLists.ResumeStep | lib/src/main/java/com/mammb/code/jsonstruct/processor/assembly/Imports.java:128-132 | one turn of the stream: the piece written, or its failure ending it |
| ImportLists.LexTotal | lib/src/main/java/com/mammb/code/jsonstruct/processor/assembly/Imports.java:216 | String.compareTo orders any two different strings |
| ImportLists.LexTrans | lib/src/main/java/com/mammb/code/jsonstruct/processor/assembly/Imports.java:216 | String.compareTo's order is transitive |
| ImportLists.LexIrreflexive | lib/src/main/java/com/mammb/code/jsonstruct/processor/assembly/Imports.java:216 | no string is before itself |
| ImportLists.SortedUnique | lib/src/main/java/com/mammb/code/jsonstruct/processor/assembly/Imports.java:216 | two strictly sorted lists with the same names are the same list |
| ImportLists.SortedHead | lib/src/main/java/com/mammb/code/jsonstruct/processor/assembly/Imports.java:216 | the head of a sorted list is its least element |
| ImportLists.ToStringDetermined | lib/src/main/java/com/mammb/code/jsonstruct/processor/assembly/Imports.java:157-162 | toString is determined by the recorded names and the implicit prefixes |
| ImportLists.ApplyAllNoDots | lib/src/main/java/com/mammb/code/jsonstruct/processor/assembly/Imports.java:126-133 | a shortened type names no package: it has no `.` |
| ImportLists.PieceNoDot | lib/src/main/java/com/mammb/code/jsonstruct/processor/assembly/Imports.java:131 | one shortened piece has no `.` |
| ImportLists.SegmentsConcat | lib/src/main/java/com/mammb/code/jsonstruct/processor/assembly/Imports.java:127-128 | the segments put back together are the type name |
| ImportLists.DelimsAppend | lib/src/main/java/com/mammb/code/jsonstruct/processor/assembly/Imports.java:127-128 | the delimiters of a + b are those of a, then those of b |
| ImportLists.DelimsKept | lib/src/main/java/com/mammb/code/jsonstruct/processor/assembly/Imports.java:129-130 | trimming and dropping blank segments drops no delimiter |
| ImportLists.DelimsApplied | lib/src/main/java/com/mammb/code/jsonstruct/processor/assembly/Imports.java:128-132 | shortening keeps every delimiter, in order |
| ImportLists.DelimsPreserved | lib/src/main/java/com/mammb/code/jsonstruct/processor/assembly/Imports.java:126-133 | the shortened type has the `<`, `>` and `,` of the full one, in order: the generic shape survives |
| ImportLists.RecordedNames | lib/src/main/java/com/mammb/code/jsonstruct/processor/assembly/Imports.java:148-152 | every recorded name is a segment of the type, accepted by applySingle and qualified |
| ImportLists.ApplyPlainName | lib/src/main/java/com/mammb/code/jsonstruct/processor/assembly/Imports.java:126-154 | a plain qualified name is one piece: it is shortened to its simple name and recorded |
| ImportLists.StripImport | lib/src/main/java/com/mammb/code/jsonstruct/processor/assembly/Imports.java:181-192 | strip takes an import statement back to its name |
| Codes.DropLeadingBlank | lib/src/main/java/com/mammb/code/jsonstruct/processor/assembly/Code.java:289-293 | the first loop of trimLines drops exactly the leading blank lines: what is left is a suffix that is empty or starts with a line that is not blank |
| Codes.DropTrailingBlank | lib/src/main/java/com/mammb/code/jsonstruct/processor/assembly/Code.java:295-300 | the second loop drops only blank lines at the tail, keeps at least one line of a non-empty list, and stops at a line that is not blank when two or more are left |
| Codes.TrimBlankLinesRun | lib/src/main/java/com/mammb/code/jsonstruct/processor/assembly/Code.java:281-303 | the lines Code.of keeps are a contiguous run of the input, starting after its leading blank lines |
| Codes.TrimBlankLines | lib/src/main/java/com/mammb/code/jsonstruct/processor/assembly/Code.java:281-303 | trimLines never adds a line, and keeps the first line when that is not blank |
| Codes.TrimBlankLinesAround | lib/src/main/java/com/mammb/code/jsonstruct/processor/assembly/Code.java:281-303 | only blank lines are dropped, before the run and after it |
| Codes.TrimBlankLinesEmpty | lib/src/main/java/com/mammb/code/jsonstruct/processor/assembly/Code.java:281-303 | nothing is kept exactly when every line is blank |
| Codes.TrimBlankLinesEnds | lib/src/main/java/com/mammb/code/jsonstruct/processor/assembly/Code.java:281-303 | what is kept starts and ends with a line that is not blank |
| Codes.TrimBlankLinesKeeps | lib/src/main/java/com/mammb/code/jsonstruct/processor/assembly/Code.java:281-303 | lines that already start and end with a line that is not blank are kept as they are |
| Codes.TrimBlankLinesIdempotent | lib/src/main/java/com/mammb/code/jsonstruct/processor/assembly/Code.java:281-303 | trimming twice is trimming once |
| Codes.ContentOf | lib/src/main/java/com/mammb/code/jsonstruct/processor/assembly/Code.java:205-220 | content() starts with the first line and ends with the last, which gets no line feed after it (ContentJoin and LinesContent are its partners) |
| Codes.ClearLine | lib/src/main/java/com/mammb/code/jsonstruct/processor/assembly/Code.java:148-155 | clear on one line: the line is removed exactly when, trimmed, it is the key; at most one line is left; a line without the key is kept |
| Codes.SubstLine | lib/src/main/java/com/mammb/code/jsonstruct/processor/assembly/Code.java:237-265 | one line of applySubstitution: a line without the key is kept; a success gives at least one line, every continuation line starting with spaces up to the key's column; the only failure is IndexOutOfBoundsException |
| Codes.SubstAll | lib/src/main/java/com/mammb/code/jsonstruct/processor/assembly/Code.java:237-265 | the corrected substitution (see Findings) succeeds exactly when every line does, and its only failure is IndexOutOfBoundsException |
| Codes.SubstAsWritten | lib/src/main/java/com/mammb/code/jsonstruct/processor/assembly/Code.java:251-263 | the multi-line loop as written never loses a line, and its only failure is IndexOutOfBoundsException (SubstSkipsLine shows the line it skips) |
| Codes.TrimLines | lib/src/main/java/com/mammb/code/jsonstruct/processor/assembly/Code.java:281-303 | trimLines returns the input without its blank lines at the head and tail |
| Codes.ContentStep | lib/src/main/java/com/mammb/code/jsonstruct/processor/assembly/Code.java:213-218 | the content from line i on is line i as written, then the rest |
| Codes.ContentJoin | lib/src/main/java/com/mammb/code/jsonstruct/processor/assembly/Code.java:205-220 | lines that do not end in a line feed are joined with one line feed between them |
| Codes.ContentAppendLast | lib/src/main/java/com/mammb/code/jsonstruct/processor/assembly/Code.java:100-104 | appending to the last line appends to the content |
| Codes.Separator | lib/src/main/java/com/mammb/code/jsonstruct/processor/assembly/Code.java:215-217 | after a line with a successor comes a line feed, unless the line already ends in one |
| Codes.ContentConcat | lib/src/main/java/com/mammb/code/jsonstruct/processor/assembly/Code.java:183-186 | the content of two blocks put together is the first block's content, a separator, then the second's |
| Codes.LinesContent | lib/src/main/java/com/mammb/code/jsonstruct/processor/assembly/Code.java:205-220 | reading the content back as lines gives the lines again, for lines without terminators whose last line is not empty |
| Codes.LinesCons | lib/src/main/java/com/mammb/code/jsonstruct/processor/assembly/Code.java:65-66 | a line without terminators, a line feed and more text: the line is the first of the lines |
| Codes.OfContent | lib/src/main/java/com/mammb/code/jsonstruct/processor/assembly/Code.java:65-66 | Code.of on a block's content gives back the block's lines, for lines without terminators that start and end with a line that is not blank |
| Codes.IndentSpaces | lib/src/main/java/com/mammb/code/jsonstruct/processor/assembly/Code.java:89 | an indent is all spaces |
| Codes.TrimIndent | lib/src/main/java/com/mammb/code/jsonstruct/processor/assembly/Code.java:89 | trim ignores an indent: indenting never changes which lines clear takes for the key |
| Codes.ClearStep | lib/src/main/java/com/mammb/code/jsonstruct/processor/assembly/Code.java:149-155 | one turn of clear: the line goes, loses the key, or stays, then the next line |
| Codes.ClearedCount | lib/src/main/java/com/mammb/code/jsonstruct/processor/assembly/Code.java:148-156 | exactly the lines that are the key, trimmed, are removed; every other line stays, one for one |
| Codes.ClearedAbsent | lib/src/main/java/com/mammb/code/jsonstruct/processor/assembly/Code.java:148-156 | a block that does not mention the key is left as it is |
| Codes.IndentedRest | lib/src/main/java/com/mammb/code/jsonstruct/processor/assembly/Code.java:259-261 | the lines after the first are each indented to the key's column |
| Codes.SubstStep | lib/src/main/java/com/mammb/code/jsonstruct/processor/assembly/Code.java:243-263 | one line of the substitution: its replacement lines, or the failure that ends it |
| Codes.SubstEnd | lib/src/main/java/com/mammb/code/jsonstruct/processor/assembly/Code.java:237-265 | the substitution ends with every line done |
| Codes.SubstAbsent | lib/src/main/java/com/mammb/code/jsonstruct/processor/assembly/Code.java:237-265 | lines that do not mention the key are untouched |
| Codes.SubstSingleLine | lib/src/main/java/com/mammb/code/jsonstruct/processor/assembly/Code.java:241-249 | a value without a line feed is put in place of every occurrence of the key, line by line, and the number of lines stays |
| Codes.ReplaceAbsentLine | lib/src/main/java/com/mammb/code/jsonstruct/processor/assembly/Code.java:244-247 | a line without the key is its own replacement |
| JavaText.ReplaceEmptyTarget | lib/src/main/java/com/mammb/code/jsonstruct/processor/assembly/Code.java:244-247 | `String.replace` with an empty target, which every line contains: the replacement, then each character followed by the replacement |
| JavaText.ReplaceEmptyLength | lib/src/main/java/com/mammb/code/jsonstruct/processor/assembly/Code.java:244-247 | with an empty target the replacement is inserted once more than the text has characters |
| JavaText.ReplaceEmptyAt | lib/src/main/java/com/mammb/code/jsonstruct/processor/assembly/Code.java:244-247 | with an empty target, character i of the text comes right after its own copy of the replacement, at offset i times one more than the replacement's length |
| JavaText.ReplaceEmptyExample | lib/src/main/java/com/mammb/code/jsonstruct/processor/assembly/Code.java:247 | `"ab".replace("", "X")` is `"XaXbX"` |
| Codes.SubstEmptyKey | lib/src/main/java/com/mammb/code/jsonstruct/processor/assembly/Code.java:237-249 | interpolating the empty key puts the value before every character and at the end: the line `ab` with the value `X` becomes `XaXbX` |
| Codes.SubstKeepsLines | lib/src/main/java/com/mammb/code/jsonstruct/processor/assembly/Code.java:237-265 | the substitution never loses a line |
| Codes.SubstSkipsLine | lib/src/main/java/com/mammb/code/jsonstruct/processor/assembly/Code.java:252-263 | as written, two lines `$` interpolated with `a\nb` give `a`, `b`, `$`: the second line is stepped over and keeps its key |
| Codes.AsWrittenExpands | lib/src/main/java/com/mammb/code/jsonstruct/processor/assembly/Code.java:252-263 | as written, a line with the key is replaced by its block and the index moves on by the value's line count plus one |
| Codes.AsWrittenDone | lib/src/main/java/com/mammb/code/jsonstruct/processor/assembly/Code.java:252 | as written, the loop stops once the index is past the last line |
| Codes.SubstFillsBoth | lib/src/main/java/com/mammb/code/jsonstruct/processor/assembly/Code.java:237-265 | substituted line by line, the same two lines are both filled: `a`, `b`, `a`, `b` |
| Codes.TwoLines | lib/src/main/java/com/mammb/code/jsonstruct/processor/assembly/Code.java:239 | `a\nb` splits into two lines |
| Codes.KeyLineExpands | lib/src/main/java/com/mammb/code/jsonstruct/processor/assembly/Code.java:256-261 | the line `$` with the value `a\nb` becomes the lines `a` and `b` |
| Codes.LastMark | lib/src/main/java/com/mammb/code/jsonstruct/processor/assembly/Code.java:168-169 | the index found is -1, or a line from the second on whose trimmed text starts with the mark, with no later such line |
| Codes.Code.Of | lib/src/main/java/com/mammb/code/jsonstruct/processor/assembly/Code.java:55-57 | Code.of() has no lines and fresh imports |
| Codes.Code.OfLiteral | lib/src/main/java/com/mammb/code/jsonstruct/processor/assembly/Code.java:65-67 | Code.of(literal) has the literal's lines without blank lines at its head and tail, and fresh imports |
| Codes.Code.Indent | lib/src/main/java/com/mammb/code/jsonstruct/processor/assembly/Code.java:84-92 | indent(level) puts level indent units before every line; a level of zero or less changes nothing |
| Codes.Code.IndentOne | lib/src/main/java/com/mammb/code/jsonstruct/processor/assembly/Code.java:74-76 | indent() puts one indent unit before every line |
| Codes.Code.Append | lib/src/main/java/com/mammb/code/jsonstruct/processor/assembly/Code.java:100-104 | append extends the last line; without lines it throws IndexOutOfBoundsException and changes nothing |
| Codes.Code.Clear | lib/src/main/java/com/mammb/code/jsonstruct/processor/assembly/Code.java:148-156 | clear removes the lines that are the key and deletes the key from the others |
| Codes.Code.ClearAt | lib/src/main/java/com/mammb/code/jsonstruct/processor/assembly/Code.java:150-154 | one turn of clear: the line goes, loses the key or stays, and the index moves past what is left of it |
| Codes.Code.FindMark | lib/src/main/java/com/mammb/code/jsonstruct/processor/assembly/Code.java:168-173 | the loop of addBeforeLast finds the last marked line from the second on, or -1 |
| Codes.Code.AddBeforeLastAsWritten | lib/src/main/java/com/mammb/code/jsonstruct/processor/assembly/Code.java:167-175 | as written, addBeforeLast inserts the block before the last marked line when there is one, and then always throws RuntimeException |
| Codes.Code.AddBeforeLast | lib/src/main/java/com/mammb/code/jsonstruct/processor/assembly/Code.java:167-175 | as intended, addBeforeLast inserts the block before the last marked line, and throws only when no line is marked |
| Codes.Code.Add | lib/src/main/java/com/mammb/code/jsonstruct/processor/assembly/Code.java:183-187 | add(code) puts the other block's lines after these and merges its imports |
| Codes.Code.AddImports | lib/src/main/java/com/mammb/code/jsonstruct/processor/assembly/Code.java:195-198 | add(imports) merges the imports and leaves the lines |
| Codes.Code.Content | lib/src/main/java/com/mammb/code/jsonstruct/processor/assembly/Code.java:205-220 | content() is the lines, each followed by a line feed when another follows and it does not end in one |
| Codes.Code.WriteLine | lib/src/main/java/com/mammb/code/jsonstruct/processor/assembly/Code.java:214-217 | one turn of content's loop writes the entry's line, and a line feed when another follows and it has none |
| Codes.Code.ApplySubstitution | lib/src/main/java/com/mammb/code/jsonstruct/processor/assembly/Code.java:237-265 | the corrected applySubstitution (see Findings): every line substituted in turn, as SubstAll says, up to the first failure; the loop as written is SubstAsWritten |
| Codes.Code.ReplaceEach | lib/src/main/java/com/mammb/code/jsonstruct/processor/assembly/Code.java:241-249 | the single-line loop fills every line with the key |
| Codes.Code.ExpandEach | lib/src/main/java/com/mammb/code/jsonstruct/processor/assembly/Code.java:250-264 | the multi-line loop, corrected, expands every line with the key |
| Codes.Code.ReplaceStep | lib/src/main/java/com/mammb/code/jsonstruct/processor/assembly/Code.java:243-248 | one turn of the single-line loop keeps the substitution on course |
| Codes.Code.ExpandStep | lib/src/main/java/com/mammb/code/jsonstruct/processor/assembly/Code.java:252-263 | one turn of the multi-line loop keeps the substitution on course, or fails as it does |
| Codes.Code.ReplaceAt | lib/src/main/java/com/mammb/code/jsonstruct/processor/assembly/Code.java:247 | the key, wherever it occurs in the line, becomes the one line of the value |
| Codes.Code.ExpandAt | lib/src/main/java/com/mammb/code/jsonstruct/processor/assembly/Code.java:256-262 | the line becomes its expanded lines, and the index moves past them |
| Codes.Code.Interpolate | lib/src/main/java/com/mammb/code/jsonstruct/processor/assembly/Code.java:125-128 | with the corrected substitution, interpolate(key, content) puts the text in place of the key |
| Codes.Code.InterpolateType | lib/src/main/java/com/mammb/code/jsonstruct/processor/assembly/Code.java:113-116 | with the corrected substitution, interpolateType shortens the type with the imports, recording its names, then puts it in place of the key; a bad type fails and leaves the lines |
| Codes.Code.InterpolateCode | lib/src/main/java/com/mammb/code/jsonstruct/processor/assembly/Code.java:137-141 | with the corrected substitution, interpolate(key, other) puts the other block's content in place of the key, then merges its imports |
| Paths.NonBlank | lib/src/main/java/com/mammb/code/jsonstruct/processor/assembly/Path.java:127-128 | the filter keeps only segments that are not blank, and never adds one |
| Paths.NonBlankFree | lib/src/main/java/com/mammb/code/jsonstruct/processor/assembly/Path.java:127-128 | segments free of a char stay free of it after the filter |
| Paths.PointerOf | lib/src/main/java/com/mammb/code/jsonstruct/processor/assembly/Path.java:126-130 | pointerJoin starts with `/`, and is `/` alone exactly when no segment is non-blank |
| Paths.PointerSegments | lib/src/main/java/com/mammb/code/jsonstruct/processor/assembly/Path.java:126-130 | pointerJoin starts with `/`, is `/` alone without segments that are not blank, and otherwise splits at `/` back into exactly those segments |
| Paths.JoinSplit | lib/src/main/java/com/mammb/code/jsonstruct/processor/assembly/Path.java:126-130 | non-empty parts without the delimiter, joined by it and split at it, come back |
| Paths.Capitalized | lib/src/main/java/com/mammb/code/jsonstruct/processor/assembly/Path.java:141 | the first char is upper-cased and the rest is kept |
| Paths.CamelPartsLength | lib/src/main/java/com/mammb/code/jsonstruct/processor/assembly/Path.java:139-142 | the camel-case parts are as long as the non-blank segments together, and empty only without any |
| Paths.CamelOf | lib/src/main/java/com/mammb/code/jsonstruct/processor/assembly/Path.java:137-145 | camelJoin throws IndexOutOfBoundsException exactly when no segment is non-blank, and is otherwise as long as those segments together |
| Paths.CamelSingle | lib/src/main/java/com/mammb/code/jsonstruct/processor/assembly/Path.java:137-145 | a single segment that starts with a lower-case letter is its own camel case |
| Paths.CamelTwo | lib/src/main/java/com/mammb/code/jsonstruct/processor/assembly/Path.java:137-145 | each later segment starts a word: camelJoin of `aa`, `bb` is `aaBb` |
| Paths.CamelOr | lib/src/main/java/com/mammb/code/jsonstruct/processor/assembly/Objectify.java:189 | camelJoinOr(other) is the camel case, or other when there is no non-blank segment |
| Paths.ElvisUpToChain | lib/src/main/java/com/mammb/code/jsonstruct/processor/assembly/Path.java:104-116 | without blank segments, the parts of the entries before the last are the Optional chain followed by the separator |
| Paths.ElvisUpToAll | lib/src/main/java/com/mammb/code/jsonstruct/processor/assembly/Path.java:104-116 | without blank segments, the parts of all the entries are the Optional chain |
| Paths.ElvisChain | lib/src/main/java/com/mammb/code/jsonstruct/processor/assembly/Path.java:102-119 | without blank segments, elvisJoin is `Optional.ofNullable(` + the chain of `.map(e -> e.seg())` calls + `)` |
| Paths.ElvisTwo | lib/src/main/java/com/mammb/code/jsonstruct/processor/assembly/Path.java:102-119 | elvisJoin of `aa`, `bb` is `Optional.ofNullable(aa).map(e -> e.bb())` |
| Paths.ElvisTwoText | lib/src/main/java/com/mammb/code/jsonstruct/processor/assembly/Path.java:103-117 | the two-segment chain written out |
| Paths.ElvisTrailingBlank | lib/src/main/java/com/mammb/code/jsonstruct/processor/assembly/Path.java:106-115 | a blank last segment is skipped, but the separator written for the segment before it stays: the chain ends in `.map(e -> e.)` |
| Paths.ElvisOf | lib/src/main/java/com/mammb/code/jsonstruct/processor/assembly/Path.java:102-119 | elvisJoin starts with `Optional.ofNullable(` and ends with `)`, and is just those without segments |
| Paths.Path.Of | lib/src/main/java/com/mammb/code/jsonstruct/processor/assembly/Path.java:49-51 | Path.of() has no segments |
| Paths.Path.OfAll | lib/src/main/java/com/mammb/code/jsonstruct/processor/assembly/Path.java:59-61 | Path.of(paths...) has the given segments |
| Paths.Path.With | lib/src/main/java/com/mammb/code/jsonstruct/processor/assembly/Path.java:64-69 | with(name) is a new path with the segments and then name, and this path is left as it is |
| Paths.Path.IsEmpty | lib/src/main/java/com/mammb/code/jsonstruct/processor/assembly/Path.java:76-78 | isEmpty() exactly when there is no segment |
| Paths.Path.Add | lib/src/main/java/com/mammb/code/jsonstruct/processor/assembly/Path.java:85-87 | add puts the segment at the end |
| Paths.Path.Clear | lib/src/main/java/com/mammb/code/jsonstruct/processor/assembly/Path.java:93-95 | clear leaves no segment |
| Paths.Path.ElvisJoin | lib/src/main/java/com/mammb/code/jsonstruct/processor/assembly/Path.java:102-119 | the walk of elvisJoin writes ElvisOf of the segments |
| Paths.Path.ElvisStep | lib/src/main/java/com/mammb/code/jsonstruct/processor/assembly/Path.java:105-115 | one entry: nothing for a blank segment, otherwise the segment (called when it is not the first and has no `)`) and the separator when another entry follows |
| Paths.Path.PointerJoin | lib/src/main/java/com/mammb/code/jsonstruct/processor/assembly/Path.java:126-130 | pointerJoin() is PointerOf of the segments |
| Paths.Path.CamelJoin | lib/src/main/java/com/mammb/code/jsonstruct/processor/assembly/Path.java:137-145 | camelJoin() is CamelOf of the segments |
| LangUtils.TypeSize | lib/src/main/java/com/mammb/code/jsonstruct/processor/LangUtil.java:273-303 | every type mirror has a positive size, the measure that makes the generators' recursion over type arguments finite |
| LangUtils.ArgSmaller | lib/src/main/java/com/mammb/code/jsonstruct/processor/LangUtil.java:279-281 | a type argument is no larger than its argument list |
| LangUtils.Filter | lib/src/main/java/com/mammb/code/jsonstruct/processor/LangUtil.java:227-230 | Stream.filter keeps exactly the elements that pass, and keeps nothing when none passes |
| LangUtils.FilterHead | lib/src/main/java/com/mammb/code/jsonstruct/processor/LangUtil.java:233-235 | the filter keeps the order: its head is the first element that passes |
| LangUtils.FirstIndex | lib/src/main/java/com/mammb/code/jsonstruct/processor/LangUtil.java:233-235 | findFirst finds the first element that passes, or none when none does |
| LangUtils.WidestFrom | lib/src/main/java/com/mammb/code/jsonstruct/processor/LangUtil.java:242 | Stream.max by parameter count finds an element with the most parameters, the first of those |
| LangUtils.Widest | lib/src/main/java/com/mammb/code/jsonstruct/processor/LangUtil.java:242 | the max is absent exactly for an empty stream, and is otherwise the first element with the most parameters |
| LangUtils.GenericReturnNotFactory | lib/src/main/java/com/mammb/code/jsonstruct/processor/LangUtil.java:126-139 | a method returning a generic type never prints as its class's qualified name, so it is not a static factory |
| LangUtils.IsStaticFactory | lib/src/main/java/com/mammb/code/jsonstruct/processor/LangUtil.java:126-139 | a static factory is a method, never a constructor, so the two kinds of candidate are apart |
| LangUtils.IsClass | lib/src/main/java/com/mammb/code/jsonstruct/processor/LangUtil.java:100-106 | a missing element is not a class; an enum or an interface never is (only class and record kinds count) |
| LangUtils.IsConstructor | lib/src/main/java/com/mammb/code/jsonstruct/processor/LangUtil.java:115-118 | a constructor candidate has the constructor kind and is public; an element without the public modifier is never one |
| LangUtils.IsConstructorLike | lib/src/main/java/com/mammb/code/jsonstruct/processor/LangUtil.java:147-149 | a candidate is a public executable that is a constructor or a static method, and it is exactly one of constructor and static factory |
| LangUtils.IsAnnotated | lib/src/main/java/com/mammb/code/jsonstruct/processor/LangUtil.java:342-344 | an element without annotations is annotated with nothing |
| LangUtils.SelectConstructorLike | lib/src/main/java/com/mammb/code/jsonstruct/processor/LangUtil.java:224-253 | the element chosen is a constructor-like candidate, and none is chosen exactly when there is no candidate |
| LangUtils.SelectAnnotatedFirst | lib/src/main/java/com/mammb/code/jsonstruct/processor/LangUtil.java:232-236 | the first candidate annotated with the marker wins |
| LangUtils.NoneAnnotated | lib/src/main/java/com/mammb/code/jsonstruct/processor/LangUtil.java:232-236 | without a marker, or with one annotating no candidate, the marker step finds nothing |
| LangUtils.SelectWidestConstructor | lib/src/main/java/com/mammb/code/jsonstruct/processor/LangUtil.java:239-243 | otherwise a public constructor with parameters wins, one with the most parameters |
| LangUtils.SelectWidestFactory | lib/src/main/java/com/mammb/code/jsonstruct/processor/LangUtil.java:245-249 | otherwise a static factory with parameters wins, one with the most parameters |
| LangUtils.SelectFirstCandidate | lib/src/main/java/com/mammb/code/jsonstruct/processor/LangUtil.java:251 | otherwise the first constructor-like candidate is taken |
| LangUtils.EntryType | lib/src/main/java/com/mammb/code/jsonstruct/processor/LangUtil.java:273-285 | entryType is an array's component type or the one type argument of a declared type, and throws for anything else; the result is smaller than the type |
| LangUtils.BiEntryTypes | lib/src/main/java/com/mammb/code/jsonstruct/processor/LangUtil.java:294-303 | biEntryTypes is the two type arguments of a declared type with exactly two, and throws for anything else; both are smaller than the type |
| LangUtils.GetterIsAccessor | lib/src/main/java/com/mammb/code/jsonstruct/processor/LangUtil.java:352-361 | a public parameterless non-void method named get and a capital is a bean accessor |
| LangUtils.IsPrefixNeedsBoolean | lib/src/main/java/com/mammb/code/jsonstruct/processor/LangUtil.java:362-366 | an is-prefixed method is an accessor only with a primitive boolean result |
| LangUtils.IsBeanAccessor | lib/src/main/java/com/mammb/code/jsonstruct/processor/LangUtil.java:352-368 | an accessor is a public executable without parameters and not void, and the char after its `get` or `is` prefix is upper case |
| LangUtils.Decapitalize | lib/src/main/java/com/mammb/code/jsonstruct/processor/LangUtil.java:396-407 | decapitalize keeps the length |
| LangUtils.DecapitalizeExamples | lib/src/main/java/com/mammb/code/jsonstruct/processor/LangUtil.java:396-407 | `FooBah` becomes `fooBah`, `X` becomes `x`, and `URL` stays |
| LangUtils.DecapitalizeIdempotent | lib/src/main/java/com/mammb/code/jsonstruct/processor/LangUtil.java:396-407 | decapitalizing twice is decapitalizing once |
| LangUtils.DecapitalizeLowers | lib/src/main/java/com/mammb/code/jsonstruct/processor/LangUtil.java:396-407 | a name that is not blank and does not start with two capitals comes out starting with a non-capital, with the rest kept |
| LangUtils.PropertyName | lib/src/main/java/com/mammb/code/jsonstruct/processor/LangUtil.java:375-387 | a non-accessor keeps its simple name; an accessor loses its get or is prefix and is decapitalized |
| LangUtils.PropertyNameOfGetter | lib/src/main/java/com/mammb/code/jsonstruct/processor/LangUtil.java:375-387 | the getter for a lower-case property name gives back that name: getFooBah gives fooBah |
| LangUtils.DecapitalizeRoundTrip | lib/src/main/java/com/mammb/code/jsonstruct/processor/LangUtil.java:396-407 | decapitalize undoes the capitalization of a property name that starts with a lower-case letter |
| LangUtils.SelectAccessors | lib/src/main/java/com/mammb/code/jsonstruct/processor/LangUtil.java:312-333 | no accessor chosen carries the excluded annotation; a class gives exactly its bean-accessor methods without the annotation, in their order; a record gives exactly its component accessors without the annotation, in component order; anything else gives none |
| LangUtils.ComponentAccessors | lib/src/main/java/com/mammb/code/jsonstruct/processor/LangUtil.java:315-318 | a record gives at most one accessor per enclosed element |
| LangUtils.RecordAccessorsInOrder | lib/src/main/java/com/mammb/code/jsonstruct/processor/LangUtil.java:314-320 | a record's accessors come in component order |
| LangUtils.Erasure | lib/src/main/java/com/mammb/code/jsonstruct/processor/assembly/Objectify.java:151 | erasure drops type arguments and keeps primitive types |
| LangUtils.SimpleName | lib/src/main/java/com/mammb/code/jsonstruct/processor/assembly/Objectify.java:379 | the simple name is what follows the last `.` of the qualified name |
| LangUtils.AsTypeElement | lib/src/main/java/com/mammb/code/jsonstruct/processor/LangUtil.java:262-264 | asTypeElement finds only a known type element named by the declared type |
| LangUtils.IsEnum | lib/src/main/java/com/mammb/code/jsonstruct/processor/LangUtil.java:157-162 | an enum type is declared, and its element is not a class (isClass rejects it) |
| LangUtils.IsListLike | lib/src/main/java/com/mammb/code/jsonstruct/processor/LangUtil.java:170-172 | list-like types are declared, never arrays, and decided on their erasure alone: type arguments play no part |
| LangUtils.IsSetLike | lib/src/main/java/com/mammb/code/jsonstruct/processor/LangUtil.java:180-182 | set-like types are declared, never arrays, and decided on their erasure alone |
| LangUtils.IsMapLike | lib/src/main/java/com/mammb/code/jsonstruct/processor/LangUtil.java:190-192 | map-like types are declared, never arrays, and decided on their erasure alone |
| LangUtils.IsArrayLike | lib/src/main/java/com/mammb/code/jsonstruct/processor/LangUtil.java:213-215 | an array type prints as its component type followed by "[]", and its component is strictly smaller (the measure the generators recurse on) |
| LangUtils.TypeNames | lib/src/main/java/com/mammb/code/jsonstruct/processor/LangUtil.java:262-264 | one name per known type |
| LangUtils.KnownTypeNamed | lib/src/main/java/com/mammb/code/jsonstruct/processor/LangUtil.java:262-264 | every element asTypeElement finds is among the names the generators count |
| Generators.CountPush | lib/src/main/java/com/mammb/code/jsonstruct/processor/assembly/Objectify.java:353-365 | pushing a type adds one occurrence of it to the stack and none of any other type |
| Generators.PushShrinks | lib/src/main/java/com/mammb/code/jsonstruct/processor/assembly/Objectify.java:353-365 | a push that withStack allows never raises the remaining budget, and lowers it for a counted type: generation on a cyclic type ends |
| Generators.Decimal | lib/src/main/java/com/mammb/code/jsonstruct/processor/assembly/Objectify.java:341-350 | the counter's decimal text is never empty |
| Generators.Chained | lib/src/main/java/com/mammb/code/jsonstruct/processor/assembly/Objectify.java:341-350 | every candidate tried keeps the original candidate as its prefix and grows by at least one character per collision |
| Generators.FreeIndex | lib/src/main/java/com/mammb/code/jsonstruct/processor/assembly/Objectify.java:341-350 | the loop stops at the first candidate that is not defined, all the earlier ones being defined |
| Generators.FreeName | lib/src/main/java/com/mammb/code/jsonstruct/processor/assembly/Objectify.java:341-350 | uniqueName returns a name not yet defined, starting with the candidate, and the candidate itself when it is free |
| Generators.FreeNameCumulative | lib/src/main/java/com/mammb/code/jsonstruct/processor/assembly/Objectify.java:341-350 | the counter is appended to the already extended name: with `x` and `x1` defined, `x` becomes `x12` |
| Generators.FreshName | lib/src/main/java/com/mammb/code/jsonstruct/processor/assembly/Objectify.java:341-350 | the loop of uniqueName computes that name |
| Generators.AppendLast | lib/src/main/java/com/mammb/code/jsonstruct/processor/assembly/Code.java:100-104 | append fails on a block without lines, and otherwise extends the last line only |
| Generators.Fill | lib/src/main/java/com/mammb/code/jsonstruct/processor/assembly/Code.java:125-128 | with the corrected substitution, interpolate(key, text) never loses a line and fails only with IndexOutOfBoundsException; a one-line text keeps the number of lines and never fails |
| Generators.FillCode | lib/src/main/java/com/mammb/code/jsonstruct/processor/assembly/Code.java:137-141 | with the corrected substitution, interpolate(key, code) never loses a line and fails only with IndexOutOfBoundsException |
| Generators.ShortType | lib/src/main/java/com/mammb/code/jsonstruct/processor/assembly/Code.java:113-116 | a shortened type names no package and holds no line feed; it fails only with IllegalArgumentException |
| Generators.FillType | lib/src/main/java/com/mammb/code/jsonstruct/processor/assembly/Code.java:113-116 | with the corrected substitution, interpolateType succeeds exactly when the type shortens, fails only with IllegalArgumentException, and keeps the number of lines |
| Generators.Listed | lib/src/main/java/com/mammb/code/jsonstruct/processor/assembly/Stringify.java:131-140 | the loop over the entries succeeds exactly when no entry's block is empty, and fails only with IndexOutOfBoundsException |
| Generators.ListedSnoc | lib/src/main/java/com/mammb/code/jsonstruct/processor/assembly/Stringify.java:131-140 | a loop over the entries adds each entry's block after the earlier ones |
| Generators.ListedSingles | lib/src/main/java/com/mammb/code/jsonstruct/processor/assembly/Stringify.java:131-140 | one-line entries come out one per line, the separator after each but the last entry |
| Generators.ListedEmptyPiece | lib/src/main/java/com/mammb/code/jsonstruct/processor/assembly/Stringify.java:131-140 | an entry whose block has no lines stops the loop with the append error |
| Objectifies.Instantiation | lib/src/main/java/com/mammb/code/jsonstruct/processor/assembly/Objectify.java:368-384 | a constructor gives `new` and its text before the first parenthesis, failing when there is none; a static factory gives a name without dots, a dot and the factory's name; anything else throws |
| Objectifies.NewOf | lib/src/main/java/com/mammb/code/jsonstruct/processor/assembly/Objectify.java:370-374 | the constructor text up to its first parenthesis, after `new`; a text without a parenthesis fails the substring |
| Objectifies.FactoryOf | lib/src/main/java/com/mammb/code/jsonstruct/processor/assembly/Objectify.java:376-380 | the simple name of the declared return type, a dot and the method name; a return type that is not declared throws |
| Objectifies.DotJoin | lib/src/main/java/com/mammb/code/jsonstruct/processor/assembly/Objectify.java:379 | a name without dots joined to a method name by a dot splits back at its last dot |
| Objectifies.FirstParen | lib/src/main/java/com/mammb/code/jsonstruct/processor/assembly/Objectify.java:373 | the text before the first parenthesis holds none |
| Objectifies.InstantiationOfConstructor | lib/src/main/java/com/mammb/code/jsonstruct/processor/assembly/Objectify.java:371-373 | the constructor `Book(java.lang.String,int)` is instantiated as `new Book` |
| Objectifies.BookParen | lib/src/main/java/com/mammb/code/jsonstruct/processor/assembly/Objectify.java:373 | the first parenthesis of `Book(java.lang.String,int)` is at index 4 |
| Objectifies.InstantiationOfFactory | lib/src/main/java/com/mammb/code/jsonstruct/processor/assembly/Objectify.java:377-379 | the factory `of` returning `com.example.Book` is instantiated as `Book.of` |
| Objectifies.BookSimpleName | lib/src/main/java/com/mammb/code/jsonstruct/processor/assembly/Objectify.java:379 | the simple name of `com.example.Book` is `Book` |
| Objectifies.Objectify.Of | lib/src/main/java/com/mammb/code/jsonstruct/processor/assembly/Objectify.java:65-84 | Objectify.of starts with an empty stack, no defined names and an empty backing block |
| Objectifies.Objectify.Build | lib/src/main/java/com/mammb/code/jsonstruct/processor/assembly/Objectify.java:92-96 | build throws for an element that is not a class, enum or record; under the cut-off it throws NoSuchElement without a constructor-like element and otherwise returns object's expression for the element at the root pointer (IsObjectCode); on success it hands over the backing code and leaves a fresh block, an empty stack and no names |
| Objectifies.Objectify.BackingWithClear | lib/src/main/java/com/mammb/code/jsonstruct/processor/assembly/Objectify.java:332-338 | the backing code so far is returned, and a fresh block, an empty stack and no names follow |
| Objectifies.Objectify.UniqueName | lib/src/main/java/com/mammb/code/jsonstruct/processor/assembly/Objectify.java:341-350 | the name is the first of the candidate's chain not yet defined, and it is defined from now on |
| Objectifies.Objectify.CreatePointer | lib/src/main/java/com/mammb/code/jsonstruct/processor/assembly/Objectify.java:317-329 | a pointer name already defined is reused with nothing added; otherwise its declaration goes at the head of the backing code and the name is defined |
| Objectifies.ShapeOf | lib/src/main/java/com/mammb/code/jsonstruct/processor/assembly/Objectify.java:99-120 | toCode tries, in order: basic class, enum, array, list, set, map, and otherwise an object; each shape holds exactly when the earlier tests fail and its own holds (an array is never an enum, so array follows the basic test alone) |
| Objectifies.Objectify.ToCode | lib/src/main/java/com/mammb/code/jsonstruct/processor/assembly/Objectify.java:99-120 | the result is Generated: basic classes, enums, arrays, lists, sets and maps are dispatched in that order; a basic or enum value is converted at the root or at the pointer; a collection's expression calls a freshly named backing method on the value at the pointer; any other known type goes through withStack, so a non-class kind throws, past cyclicDepth it is "null", and below it NoSuchElement without a constructor-like element or else the object code at the pointer; an unknown type throws; the stack comes back as it was |
| Objectifies.Objectify.Basic | lib/src/main/java/com/mammb/code/jsonstruct/processor/assembly/Objectify.java:155-168 | at the root the value is converted as a whole; below it the value at the path's pointer is converted |
| Objectifies.Objectify.Enumerate | lib/src/main/java/com/mammb/code/jsonstruct/processor/assembly/Objectify.java:171-183 | the string value goes through the enum's valueOf, at the root or at the pointer |
| Objectifies.Objectify.Iterable | lib/src/main/java/com/mammb/code/jsonstruct/processor/assembly/Objectify.java:186-262 | list, set and array throw without one type argument; otherwise a backing method with a fresh name is added and the expression calls it at the path's pointer |
| Objectifies.Objectify.IterableMethod | lib/src/main/java/com/mammb/code/jsonstruct/processor/assembly/Objectify.java:191-203 | the backing method's template fails only when the entry code cannot be put in; the stack is kept |
| Objectifies.Objectify.MapCode | lib/src/main/java/com/mammb/code/jsonstruct/processor/assembly/Objectify.java:265-314 | map throws without two type arguments; otherwise a backing method with a fresh `ObjectifyMap` name is added and the expression calls it at the path's pointer |
| Objectifies.Objectify.MapMethod | lib/src/main/java/com/mammb/code/jsonstruct/processor/assembly/Objectify.java:270-308 | the key code and then the value code are put into the map template; the stack is kept |
| Objectifies.Objectify.RootCode | lib/src/main/java/com/mammb/code/jsonstruct/processor/assembly/Objectify.java:203 | an entry, key or value is exactly what toCode yields for its type at the root path (Generated at []), and the stack comes back as it was |
| Objectifies.Objectify.Call | lib/src/main/java/com/mammb/code/jsonstruct/processor/assembly/Objectify.java:310-313 | the call of a backing method names the method and the path's pointer, which is defined afterwards |
| Objectifies.Objectify.WithStack | lib/src/main/java/com/mammb/code/jsonstruct/processor/assembly/Objectify.java:353-365 | a type that is not a class, enum or record throws; a type on the stack more than cyclicDepth times gives `null` with nothing added; otherwise the result is object's expression for the type at the path's pointer (IsObjectCode), or NoSuchElement without a constructor-like element, and the stack is restored |
| Objectifies.Objectify.Object | lib/src/main/java/com/mammb/code/jsonstruct/processor/assembly/Objectify.java:123-145 | no constructor-like element throws; otherwise the instantiation is applied to one piece per parameter, an ignored one getting its default, commas between, null unless the value at the pointer is a structure |
| Objectifies.Objectify.Wrap | lib/src/main/java/com/mammb/code/jsonstruct/processor/assembly/Objectify.java:136-144 | the pointer, the instantiation and the parameters are put into the object template in that order |
| Objectifies.Objectify.Params | lib/src/main/java/com/mammb/code/jsonstruct/processor/assembly/Objectify.java:128-134 | the pieces come out in parameter order with a comma after each but the last, and each ignored parameter's piece is its default |
| Objectifies.Objectify.ParamCode | lib/src/main/java/com/mammb/code/jsonstruct/processor/assembly/Objectify.java:129-131 | an ignored parameter gets the converter's default for its erased type and defines no name; any other is exactly what toCode yields for its type at the path extended by its name (Generated at path + name) |
| Objectifies.DefaultsCode | lib/src/main/java/com/mammb/code/jsonstruct/processor/assembly/Objectify.java:148-152 | the defaults of an ignored parameter fail exactly when the erased type name cannot be shortened (IllegalArgument); otherwise they are the one line `convert.defaults(T.class)` with the short name T |
| Stringifies.Stringify.Of | lib/src/main/java/com/mammb/code/jsonstruct/processor/assembly/Stringify.java:63-82 | Stringify.of starts with an empty stack, no defined names and an empty block of backing methods |
| Stringifies.Stringify.Build | lib/src/main/java/com/mammb/code/jsonstruct/processor/assembly/Stringify.java:90-94 | build throws for an element that is not a class, enum or record; under the cut-off a success returns object's statements for the element (IsObjectCode) and hands over the backing methods, leaving a fresh block and an empty stack while the defined names stay |
| Stringifies.Stringify.BackingWithClear | lib/src/main/java/com/mammb/code/jsonstruct/processor/assembly/Stringify.java:258-263 | the backing methods so far are returned; a fresh block and an empty stack follow, and the defined names are not cleared |
| Stringifies.Stringify.UniqueName | lib/src/main/java/com/mammb/code/jsonstruct/processor/assembly/Stringify.java:266-275 | the name is the first of the candidate's chain not yet defined, and it is defined from now on |
| Stringifies.ShapeOf | lib/src/main/java/com/mammb/code/jsonstruct/processor/assembly/Stringify.java:97-111 | toCode tries, in order: basic class or enum, array, list or set, map, and otherwise an object; each shape holds exactly when the earlier tests fail and its own holds |
| Stringifies.Stringify.ToCode | lib/src/main/java/com/mammb/code/jsonstruct/processor/assembly/Stringify.java:97-111 | the result is Generated: basic classes and enums are appended through the path's elvis chain and define no name; arrays, collections and maps call a freshly named backing method; any other known type goes through withStack, so a non-class kind throws, past cyclicDepth it writes nothing, and below it a success is the object code; an unknown type throws; the stack comes back as it was |
| Stringifies.Stringify.ArrayCode | lib/src/main/java/com/mammb/code/jsonstruct/processor/assembly/Stringify.java:151-164 | an array's expression calls a fresh `Stringify` backing method on the array as a list, or on an empty array |
| Stringifies.Stringify.CollectionCode | lib/src/main/java/com/mammb/code/jsonstruct/processor/assembly/Stringify.java:167-179 | a list or set without one type argument throws; otherwise its expression calls a fresh `Stringify` backing method on the collection, or on an empty list |
| Stringifies.Stringify.BuildIterableMethod | lib/src/main/java/com/mammb/code/jsonstruct/processor/assembly/Stringify.java:182-195 | the iterable backing method's template fails with nothing added; otherwise the method goes into the backing code |
| Stringifies.Stringify.MapCode | lib/src/main/java/com/mammb/code/jsonstruct/processor/assembly/Stringify.java:198-255 | a map without two type arguments throws; a map whose key type is basic is written as an object, any other as an array alternating keys and values, through a fresh `Stringify` backing method |
| Stringifies.Stringify.BuildMapMethod | lib/src/main/java/com/mammb/code/jsonstruct/processor/assembly/Stringify.java:206-245 | the map backing method's template fails with nothing added; otherwise the method with the key's and the value's code goes into the backing code |
| Stringifies.Stringify.SubCode | lib/src/main/java/com/mammb/code/jsonstruct/processor/assembly/Stringify.java:193 | an entry, key or value is exactly what toCode yields for its type at the path of the backing method's loop variable (Generated at the segments), and the stack comes back as it was |
| Stringifies.Stringify.WithStack | lib/src/main/java/com/mammb/code/jsonstruct/processor/assembly/Stringify.java:278-290 | a type that is not a class, enum or record throws; a type on the stack more than cyclicDepth times gives no code and adds nothing; otherwise a success is object's statements for the type (IsObjectCode) and the stack is restored |
| Stringifies.Stringify.Object | lib/src/main/java/com/mammb/code/jsonstruct/processor/assembly/Stringify.java:127-148 | one property per selected accessor, in order, each its property name and its value's code, with a comma after each but the last, all between braces |
| Stringifies.Stringify.Props | lib/src/main/java/com/mammb/code/jsonstruct/processor/assembly/Stringify.java:131-140 | the properties come out in accessor order with the comma appended to each but the last |
| Stringifies.PropsStep | lib/src/main/java/com/mammb/code/jsonstruct/processor/assembly/Stringify.java:131-140 | each accessor adds its own property piece, with the comma unless it is the last accessor, after the pieces before it |
| Stringifies.Stringify.PropCode | lib/src/main/java/com/mammb/code/jsonstruct/processor/assembly/Stringify.java:133-137 | a property is its quoted property name and a colon, then the value code, which is exactly what toCode yields for the accessor's return type at the path extended by the accessor's name (Generated at path + name) |
| Stringifies.Prop | lib/src/main/java/com/mammb/code/jsonstruct/processor/assembly/Stringify.java:132-136 | a property has at least the name line and the value line; with a one-line name and a one-line value it is exactly `.append("\"name\":")` followed by the value indented by four spaces |
| Stringifies.BasicCode | lib/src/main/java/com/mammb/code/jsonstruct/processor/assembly/Stringify.java:120-124 | a basic value is written by the one line `.appendObj(path.orElse(null))` for a one-line elvis path; a failure can only be IndexOutOfBounds |
| Converters.ClassesOf | lib/src/main/java/com/mammb/code/jsonstruct/convert/Converts.java:132-149 | the class names listed are exactly those with a builtin or a custom mapping |
| Converters.ToOf | lib/src/main/java/com/mammb/code/jsonstruct/convert/Converts.java:70-81 | null gets the converter that answers null; otherwise a custom mapping wins, then a builtin one, and a class in neither gets the null converter; the result is always one of these three (the emptiness test on the custom map changes nothing) |
| Converters.StringifyOf | lib/src/main/java/com/mammb/code/jsonstruct/convert/Converts.java:91-105 | null is written "null"; an enum constant its quoted name, whatever stringifiers exist; an instance by its custom stringifier, else by its builtin one, else as its toString text in quotes |
| Converters.ToListed | lib/src/main/java/com/mammb/code/jsonstruct/convert/Converts.java:70-81 | null and a class without a mapping get the converter that answers null; a listed class gets its custom converter if it has one, else its builtin one |
| Converters.AddOverrides | lib/src/main/java/com/mammb/code/jsonstruct/convert/Converts.java:113-115 | after add, the class's adapted converter wins over any builtin one, and every other class is looked up as before |
| Converters.EnumBeforeCustom | lib/src/main/java/com/mammb/code/jsonstruct/convert/Converts.java:95-97 | an enum constant is written as its quoted name, two characters longer than the name, whatever stringifiers are registered |
| Converters.AddStringifyOverrides | lib/src/main/java/com/mammb/code/jsonstruct/convert/Converts.java:123-125 | after addStringify, an instance of the class is written by the added function and every other object as before |
| Converters.StringifyUnknown | lib/src/main/java/com/mammb/code/jsonstruct/convert/Converts.java:104 | an instance of a class without a stringifier is written as its toString text in quotes |
| Converters.Converts.Of | lib/src/main/java/com/mammb/code/jsonstruct/convert/Converts.java:46-60 | Converts.of holds the builtin maps and no custom mappings |
| Converters.Converts.To | lib/src/main/java/com/mammb/code/jsonstruct/convert/Converts.java:70-81 | a class outside typeClasses gets the converter that answers null |
| Converters.Converts.Stringify | lib/src/main/java/com/mammb/code/jsonstruct/convert/Converts.java:91-105 | on the registry's own maps: null is "null", an enum constant its quoted name, an added stringifier wins, and a class outside stringifyClasses is written as its quoted toString |
| Converters.Converts.TypeClasses | lib/src/main/java/com/mammb/code/jsonstruct/convert/Converts.java:132-137 | typeClasses lists exactly the classes with a builtin or a custom objectify converter |
| Converters.Converts.StringifyClasses | lib/src/main/java/com/mammb/code/jsonstruct/convert/Converts.java:144-149 | stringifyClasses lists exactly the classes with a builtin or a custom stringifier |
| Converters.Converts.Add | lib/src/main/java/com/mammb/code/jsonstruct/convert/Converts.java:113-115 | add maps the class to the adapted converter, to answers it from now on, and typeClasses gains the class |
| Converters.Converts.AddStringify | lib/src/main/java/com/mammb/code/jsonstruct/convert/Converts.java:123-125 | addStringify maps the class to the function, every instance of the class is written by it from now on, and stringifyClasses gains the class |

## Left out

- The `java.lang` library the core calls (`String.split`, `indexOf`, `trim`, `strip`, `isBlank`, `replace`, `repeat`, `String.join`, `Character.isUpperCase`/`toLowerCase`) is written out in `JavaText` from its documented behaviour, not from its source. For `replace` with an empty target this means the replacement goes before every character and at the end (`JavaText.ReplaceEmptyTarget`). Case mapping covers ASCII letters only.
- I/O: `IOException` and the `RuntimeException` wrapping it cannot arise from the in-memory readers modelled, so those paths are absent. The tokenizer reads from the `StringReader` model. Wrapping a reader without mark support in a `BufferedReader` is not modelled.
- `CharArray.add(CharReader, int)` depends on an arbitrary reader's contract and is not modelled. `CharArrayPool.java` (a concurrent queue of weak references) is not part of this model.
- Tokens.NumToken.GetInt, Tokens.NumToken.GetLong: the `BigDecimal` fallback is the result `ViaBigDecimal`, with no value. It is taken for a lexeme with a fraction or an exponent, and for a plain integer too long for the digit loop (10 or more digits for `getInt`, 19 or more for `getLong`). For such a plain integer, `BigDecimal.intValue()` and `longValue()` keep the low 32 or 64 bits of the decimal value, that is `Int32(IntegerValue(ca))` or `Int64(IntegerValue(ca))`; the model does not state this value, because `BigDecimal` is an arbitrary-precision library class outside the model. `Token.Num.getBigDecimal` is left out for the same reason.
- `HexFormat.fromHexDigit` in the tokenizer is modelled by the `Hex` table's `digit`.
- Tokenizers.Tokenizer.constructor: requires that the char buffer's length plus the input fit in a Java `int`, a bound the source does not check, so that `CharArray`'s 32-bit growth never overflows inside the tokenizer.
- The javax language model (`Element`, `TypeMirror`, `Types.isAssignable`, `Types.asElement`) is replaced by a small datatype of elements and types and a `World` record holding the known types and the list-, set- and map-like type names. `LangUtil.of`, `getPackage`, `isInnerClass` and `attributeIntValue` are not part of this model, because no core operation uses them.
- Methods the generators call that are absent from this version of the sources (`LangUtil.erasure`, `Code.addHead`, `Code.addEmptyLine`, `Path.camelJoinOr`) are modelled from their names and call sites: erasure drops type arguments; `addHead` prepends lines; `addEmptyLine` appends an empty line; `camelJoinOr(d)` is `camelJoin`, or `d` when no segment is non-blank.
- The `Converts` constructor's builtin maps (`BuiltinObjectify.map()`, `BuiltinStringify.map()`) are parameters of `Converters.Converts.Of`. Converters are opaque handles and stringifiers opaque functions. `Converts.defaults`, `adapt`'s char-source conversion, `StringifyBuilder.appendObj`/`appendFun` and `JsonValue.at` call code that is absent, and are not part of this model.
- The imports a generated snippet carries (`Code.add(Imports)` in `basic`, `interpolate(key, code)`) are not tracked through the generators. `Codes` models `Imports` attachment on its own.
- LangUtils.AsTypeElement: a declared type not among the known types gives `None`, which the generators turn into an exception. The source would pass `null` on and fail later.
- `null` path segments (`Objects.isNull` in `Path`) are not modelled: segments are strings, and a blank segment stands for a missing one.
- `Path.elvisJoin` is followed as written, ending in `)`; its callers append `.orElse(...)`. The repository's `PathTest` expects `.orElse(null)` at the end of the chain, which the code does not emit.
- `PrettyWriters`: the nesting level is an unbounded `int`. A level past 2^31 nesting brackets is not modelled.
- Codes.SubstAsWritten: has a fuel bound so that the as-written loop, whose index can jump backwards relative to the original lines, is a total function. Fuel running out gives `None`, and the lemmas about it supply enough fuel.
- Objectifies.Objectify.IterableMethod, Objectifies.Objectify.MapMethod, Stringifies.Stringify.BuildIterableMethod and Stringifies.Stringify.BuildMapMethod: on success the contract states only that the stack is kept and no defined name is lost. The exact text of the backing method is not stated.
- JsonPointers.ParseUnsigned, JsonPointers.AsIndex: accept ASCII digits only. `Integer.parseInt` reads digits through `Character.digit`, which also accepts the other Unicode decimal digits (the token `١`, U+0661, is index 1 in Java and an error in the model).
- Codes.Code.ApplySubstitution, Codes.Code.Interpolate, Codes.Code.InterpolateType, Codes.Code.InterpolateCode, Generators.Fill, Generators.FillCode, Generators.FillType: are stated over the corrected substitution `SubstAll`, not over the loop as written (`SubstAsWritten`), which skips the line after a multi-line expansion (see the first finding).
- The code-generation half works on Dafny `string`s, not on UTF-16 code units. On text with supplementary characters, `indexOf` (and so the indent column of a multi-line substitution) counts differently, and `LexLess` orders differently from `String.compareTo`.
- The `OutOfMemoryError` a `new char[]` or `Arrays.copyOfRange` allocation can raise is not modelled; only the one `newCapacity` throws is.
- LangUtils.IsListLike, LangUtils.IsSetLike, LangUtils.IsMapLike: a type variable is never list-, set- or map-like in the model; erasing a type variable to its bound is not modelled.
- Objectifies.Objectify.Object, Objectifies.Objectify.Params, Stringifies.Stringify.Object, Stringifies.Stringify.Props: the object code (`IsObjectCode`) fixes the template, the order of the pieces, the commas and the defaults of ignored parameters. It does not state that each remaining piece is what toCode yields for its parameter or accessor, because each piece depends on the names defined by the pieces before it. ParamCode and PropCode state that tie one call at a time.
- Exception messages are not modelled: every exception is a `Failure` value naming its Java class.

## Findings

| source | as written | input that shows it | evidently intended | confidence | as-written member | corrected member |
|---|---|---|---|---|---|---|
| lib/src/main/java/com/mammb/code/jsonstruct/processor/assembly/Code.java:252-263 | after a line with the key expands into the lines of a multi-line value, `i += code.length` and the loop's `i++` move the index one past the original line that followed, so that line is never examined | lines `$`, `$`; key `$`; value `a` LF `b` gives `a`, `b`, `$` | every line holding the key is substituted: `a`, `b`, `a`, `b` | not executed | Codes.SubstSkipsLine | Codes.SubstFillsBoth |
| lib/src/main/java/com/mammb/code/jsonstruct/processor/assembly/Code.java:167-175 | `addBeforeLast` throws after the loop even when it inserted the block (the `break` leaves the loop, not the method). | a block with a line after the first whose trimmed text starts with the mark: the block is inserted, then "can not find curly close." is thrown | throw only when no such line exists | not executed | Codes.Code.AddBeforeLastAsWritten | Codes.Code.AddBeforeLast |
| lib/src/main/java/com/mammb/code/jsonstruct/lang/CharArray.java:82-89 | `add(char[])` grows the array to hold `values.length` chars, not `length + values.length` | a full array of 32 chars given 100 more grows to capacity 100, and the copy of 100 chars at offset 32 overruns it | grow to hold `length + values.length` | not executed | CharArrays.AddAsWrittenOverflows | CharArrays.AddRequestCovers |
| lib/src/main/java/com/mammb/code/jsonstruct/lang/CharBufferReader.java:100-123 | with a pending step-back, `length(until)` tests the stepped-back char but does not count it, and scans the cache from one past `next`, skipping the cached char that follows | read `a` from `ab`, step back, then `length` of letters gives 0 | 2, the letters still to be read | not executed | CharBufferReaders.LengthAsWrittenMissesStepBack | CharBufferReaders.CharBufferReader.Length |
| lib/src/main/java/com/mammb/code/jsonstruct/JsonPrettyWriter.java:119-123 | brackets and braces change the nesting level and break the line even inside a string | the JSON string `"{"` comes out with a line break inside the quotes and leaves the level at 1 | chars inside a string are copied unchanged | not executed | PrettyWriters.BracketInString | PrettyWriters.FixedKeepsStrings |
| lib/src/main/java/com/mammb/code/jsonstruct/JsonPrettyWriter.java:110-115 | a quote right after a backslash never ends a string, even when that backslash was itself escaped | the JSON string `"\\"` leaves the writer inside quotes after its closing quote | only a quote not escaped by a backslash ends a string | not executed | PrettyWriters.EscapedBackslash | PrettyWriters.StepFixed |
