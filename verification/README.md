# Verified models of 971-Robot-Code

Dafny models of the parts of the robot code that carry the hardest invariants, with proofs
about all inputs and all runs. `dafny verify dfyconfig.toml` checks everything.

1. **JSON text layer.** `Lexer` (whitespace, strings, numbers), `TokenMachine` (the pushdown
   machine of `Tokenizer::Next`) and `Tokenizing` (the tokenizer object, method by method);
   `Json`, `Grammar`, `Accepts` and `Recovers` (the language it accepts: texts laid out from
   trees, in both directions); `ParserMachine`, `Lockstep`, `Evaluate`, `Conformance` and
   `Parsing` (the parser with its own stack, next to the tokenizer's); `Printer`, `Printing`,
   `Decimal` and `RoundTrip` (the printer, and what comes back when its text is parsed);
   `Spoiling` and `Losses` (what does not come back, and that nothing else is lost);
   `Numbers` and `Shown` (what becomes of a number, and what the text looks like).
   The model is of the dialect the code accepts, not of RFC 8259: the root is an object,
   comments are whitespace, a trailing comma in an array and a last field without a value
   are accepted, `nan`, `null` and `inf` are numbers, `\u` is refused. Reading past the end
   of the input is an outcome of its own (`PastEnd`, `NumberPast`, `None`), not a
   precondition.
2. **Flatbuffer merge and copy.** `Flat` (schemas, values, conformance), `Merge` (the merge
   and its algebra), `FieldPaths` (what a merge holds at each path) and `Merging` (the two
   passes over a builder); `Buffer` (tables in memory, decoded through vtables and relative
   offsets), `Extents` (the span of a table), `Coverage` (that it is the smallest),
   `Placement` (alignment of every value) and `BlockCopy` (measuring the span and copying it
   as one block).
3. **Configuration.** `Imports` (recursive reading with a set of visited files), `Keyed`
   (sorted sets merged by key), `Configuration` and `Configuring` (`MergeConfiguration` as
   a meaning and as loops), `Entries` (which input entry each value comes from), `Lookup`
   (renaming by maps, binary search) and `Paths` (`RemoveDotDots`).
4. **Small machines.** `Encoder` (unwrapping a rotary encoder), `SinTable` (integer table
   lookup), `Actions` (the action queue), `ThreadLocal` (the list of destructors) and
   `PrintInteger` (decimal digits in place).

Where the code and its comments disagree, the code is modelled, and the exact condition
under which the comment is right is proved:

- `ConsumeNumber` is documented to change `data_` only on success; it keeps that promise
  exactly unless the input is a minus without a digit behind it
  (`Lexer.RefusedNumberRestores`, `Lexer.StrayMinus`).
- A parsed table conforms to its schema exactly if the text is shaped like it; the text
  `{"a":"x"}`, with a string in place of a table, is accepted
  (`Conformance.ParsedConforms`, `Conformance.StringForTable`).
- Parsing the printed text of a table gives the table back exactly if every integer without
  enum is below 2^63 and no vector has a string with a quote, a backslash or a null
  character (`Losses.PrintParseExactly`, `Losses.LostValues`).
- Merging a merged configuration again succeeds exactly if, for each channel key of the
  input, the last read method and the last number of readers given agree; each channel of
  the input can agree and this still fail (`Configuration.Idempotent`,
  `Configuration.SecondRunFails`).
- The two checks on the table size that "should always be true" hold exactly for powers of
  two (`SinTable.RatioChecks`), and the lookup is exact only if table size and denominator
  agree (`SinTable.SamplePoint`, `SinTable.ExactWhen`).

## Model

| member | source | states |
|---|---|---|
| Lexer.SkipSpaceAppend | aos/json_tokenizer.cc:7-31 | blanks and complete comments in front of any input are skipped and change nothing else |
| Lexer.SkippedStops | aos/json_tokenizer.cc:7-31 | skipping whitespace twice is skipping it once |
| Lexer.SplitSpace | aos/json_tokenizer.cc:7-31 | what is skipped is exactly a sequence of blanks and complete comments |
| Lexer.SpaceGrammar | aos/json_tokenizer.cc:7-31 | what is skipped as whitespace is exactly what the grammar of blanks and comments generates |
| Lexer.StringGrammar | aos/json_tokenizer.cc:58-131 | a literal spells a string if and only if the grammar of characters and escapes gives it that meaning |
| Lexer.StringCodec | aos/json_tokenizer.cc:58-131 | reading the printer's quoted, escaped form of any string gives the string and leaves whatever follows |
| Lexer.EscapedCharReads | aos/flatbuffer_introspection.cc:164-190 | each escaped character is read back as the one character, for all characters |
| Lexer.RawStringReads | aos/flatbuffer_introspection.cc:235-238 | an unescaped string in quotes is read back exactly if it has no quote and no backslash |
| Lexer.MisreadDiffers | aos/flatbuffer_introspection.cc:235-238 | what is read for an unescaped string that needed escaping does not even start with that string, whatever follows it |
| Lexer.ReadNumberShrinks | aos/json_tokenizer.cc:133-236 | a number uses up input, and a refusal leaves no more input than there was |
| Lexer.RefusedNumberRestores | aos/json_tokenizer.cc:133-236 | a refused number leaves the input alone if and only if it is not a minus without a digit behind it |
| Lexer.StrayMinus | aos/json_tokenizer.cc:139-172 | an input on which the documented restoring does not happen |
| Lexer.NumberDelimited | aos/json_tokenizer.cc:133-236 | a number literal is reported verbatim in front of anything that may follow a value |
| Lexer.NumberReported | aos/json_tokenizer.cc:133-236 | whatever is reported as a number is a number literal |
| Lexer.DecimalIsNumber | aos/json_tokenizer.cc:161-235 | integer, fraction and exponent parts make a number literal, with and without minus |
| Lexer.SplitDecimal | aos/json_tokenizer.cc:161-235 | every decimal that is scanned consists of an integer, a fraction and an exponent part |
| TokenMachine.Step | aos/json_tokenizer.cc:238-449 | no call looks at the top of an empty stack; a token that is not final leaves state and stack in agreement and makes the measure drop; the end is reported exactly in the end state with no input left |
| TokenMachine.RunLength | aos/json_tokenizer.cc:238-449 | from any state there are at most as many further calls as twice the input plus the open brackets, plus one |
| TokenMachine.TokensLength | aos/json_tokenizer.cc:238-449 | at most 2n + 1 calls on an input of length n |
| Tokenizing.Tokenizer.Consume | aos/json_tokenizer.cc:33-56 | true exactly if the token is a prefix, and the input is advanced or restored |
| Tokenizing.Tokenizer.ConsumeWhitespace | aos/json_tokenizer.cc:7-31 | the nested loops compute the recursive skipping; past the end exactly if a comment is not closed |
| Tokenizing.Tokenizer.ConsumeString | aos/json_tokenizer.cc:58-131 | copying whole segments refines reading one character at a time; a failure restores the input |
| Tokenizing.Tokenizer.ConsumeDigits | aos/json_tokenizer.cc:174-183 | skips all digits and reports whether anything is left |
| Tokenizing.Tokenizer.ConsumeInteger | aos/json_tokenizer.cc:161-184 | scans the integer part, or restores |
| Tokenizing.Tokenizer.ConsumeFraction | aos/json_tokenizer.cc:186-200 | scans the fraction, or restores |
| Tokenizing.Tokenizer.ConsumeExponent | aos/json_tokenizer.cc:202-232 | scans the exponent, or restores |
| Tokenizing.Tokenizer.ConsumeDecimal | aos/json_tokenizer.cc:161-235 | the three parts in turn, with the one place where the input is read past its end |
| Tokenizing.Tokenizer.ConsumeNumber | aos/json_tokenizer.cc:133-236 | reports and leaves behind exactly what `ReadNumber` says |
| Tokenizing.Tokenizer.Next | aos/json_tokenizer.cc:238-449 | one step of the pushdown machine, with the field name and value it announces |
| Tokenizing.Tokenizer.NextField | aos/json_tokenizer.cc:261-289 | the step in the state that expects a field |
| Tokenizing.Tokenizer.NextValue | aos/json_tokenizer.cc:290-396 | the step in the state that expects a value |
| Tokenizing.Tokenizer.NextClose | aos/json_tokenizer.cc:331-350 | a closing bracket in place of a value |
| Tokenizing.Tokenizer.Unwind | aos/json_tokenizer.cc:398-438 | the transient states that report the end of an object or array |
| Json.WalkInjective | aos/json_tokenizer.cc:238-449 | the token stream of a tree, followed by anything, determines the tree |
| Accepts.ValueRuns | aos/json_tokenizer.cc:290-396 | any layout of a value delivers the pre-order walk of its tree, whatever is open around it and whatever follows |
| Accepts.SpellingAccepted | aos/json_tokenizer.cc:238-449 | every spelling of an object is accepted with the walk of that object |
| Recovers.AcceptedSpelling | aos/json_tokenizer.cc:238-449 | every accepted text is a spelling: brackets match, names occur only in objects, all input is used |
| Recovers.TokenizerLanguage | aos/json_tokenizer.cc:238-449 | a text delivers the walk of a tree and ends well if and only if it spells that tree |
| Recovers.Unambiguous | aos/json_tokenizer.cc:238-449 | no text spells two trees |
| Decimal.ShownAsInt | aos/json_tokenizer.cc:451-459 | a printed integer is read as itself if and only if it has 64 bits with sign |
| ParserMachine.WriteTableField | aos/json_to_flatbuffer.cc:80-93 | the first element given for a field decides what the table holds, even if it does not fit |
| Numbers.CastMeaning | aos/json_to_flatbuffer.cc:446-501 | an integer is stored as the number in the field's range that is congruent to it modulo the field's width; a flag as zero or one |
| Numbers.NumberParsed | aos/json_to_flatbuffer.cc:420-579 | what parsing an object with one number gives, for every number and field type: an integer modulo the width, a real from an integer or from the text, nothing on a mismatch, a refusal if the text does not convert |
| Lockstep.StepEffect | aos/json_tokenizer.cc:238-449 | what each kind of token says about the stack before and after it |
| Lockstep.StaysInStep | aos/json_to_flatbuffer.cc:183-334 | after every token handled, the parser's stack flattens to the tokenizer's; no empty stack and no unset field index is ever used, the "Empty stack" and "Failed to unwind" branches are unreachable |
| Evaluate.ValueConsumed | aos/json_to_flatbuffer.cc:183-418 | handling the tokens of a value adds exactly the element the value means, in any context |
| Evaluate.FieldsConsumed | aos/json_to_flatbuffer.cc:183-334 | handling the tokens of an object hands the table it means to the context below |
| Evaluate.ArrayConsumed | aos/json_to_flatbuffer.cc:581-611 | handling the tokens of an array adds the vector it means |
| Evaluate.ObjectParsed | aos/json_to_flatbuffer.cc:183-334 | the stack machine on the walk of an object computes the recursive meaning of the object |
| Evaluate.ParseMeaning | aos/json_to_flatbuffer.cc:183-334 | a text is accepted with a table if and only if it spells an object that means the table |
| Conformance.ParsedConforms | aos/json_to_flatbuffer.cc:420-579 | the parsed table conforms to the schema if and only if the object is shaped like it |
| Conformance.StringForTable | aos/json_to_flatbuffer.cc:420-579 | a text that is parsed to a table that does not conform |
| Parsing.BuildTable | aos/json_to_flatbuffer.cc:80-93 | the loop with the fields in use builds the specified table |
| Parsing.PackVector | aos/json_to_flatbuffer.cc:581-611 | packing from back to front keeps the order; a mismatch fails |
| Parsing.JsonParser.AddElement | aos/json_to_flatbuffer.cc:336-418 | queues an element that fits in the vector or among the fields of the top context only |
| Parsing.JsonParser.Handle | aos/json_to_flatbuffer.cc:183-334 | one token does what the stack machine says |
| Parsing.JsonParser.AddScalar | aos/json_to_flatbuffer.cc:336-418 | a scalar is converted by the type of its field, or refused, also where schema and text disagree on being in a vector |
| Parsing.JsonParser.OpenTable | aos/json_to_flatbuffer.cc:206-225 | a start of object opens a context of the field's type |
| Parsing.JsonParser.CloseTable | aos/json_to_flatbuffer.cc:226-257 | an end of object writes the table and hands it down |
| Parsing.JsonParser.FinishVector | aos/json_to_flatbuffer.cc:581-611 | an end of array writes the vector and leaves vector mode |
| Parsing.JsonParser.DoParse | aos/json_to_flatbuffer.cc:183-334 | the loop over both machines computes the parse of the text and terminates; it reads past the end exactly if the tokenizer does |
| Printing.AddWrapping | aos/flatbuffer_introspection.cc:116-121 | a newline and two spaces for each level |
| Printing.AddEscaped | aos/flatbuffer_introspection.cc:159-195 | appends the quoted, escaped form |
| Printing.IntOrEnumToString | aos/flatbuffer_introspection.cc:84-112 | appends the enum's name, a word for a bool, or the number |
| Printing.ElemToString | aos/flatbuffer_introspection.cc:228-256 | appends the text of the layout of an element |
| Printing.AddTruncated | aos/flatbuffer_introspection.cc:202-207 | appends the text that stands in for a vector that is too long, which is well-formed |
| Printing.VectorToString | aos/flatbuffer_introspection.cc:196-265 | the loop with separators and wrapping appends the text of the array's layout |
| Printing.FieldToString | aos/flatbuffer_introspection.cc:136-284 | appends the text of the layout of a field |
| Printing.ShouldWrap | aos/flatbuffer_introspection.cc:302-311 | wraps exactly if some field is a vector or a table |
| Printing.ObjectToString | aos/flatbuffer_introspection.cc:289-345 | the loop over the fields appends the text of the object's layout, with exactly the fields present |
| Shown.ObjectShown | aos/flatbuffer_introspection.cc:289-345 | a table at any depth is its members joined by commas, on lines of their own with two spaces a level exactly if several lines are allowed and its type has a vector or table field |
| Shown.VectorShown | aos/flatbuffer_introspection.cc:196-265 | a vector is its elements joined by commas, on lines of their own exactly if several lines are allowed and they are tables |
| Shown.ValueShown | aos/flatbuffer_introspection.cc:136-195 | a real shows the text of its own value, a string its escaped form in quotes, a flag its word, an integer its digits |
| RoundTrip.EnumRoundTrip | aos/flatbuffer_introspection.cc:75-81 | an enum's printed name is read back as its value |
| RoundTrip.IntRoundTrip | aos/flatbuffer_introspection.cc:13-46 | a printed integer, bool or enum value is stored as itself |
| RoundTrip.ItemsRoundTrip | aos/flatbuffer_introspection.cc:217-257 | the printed elements of a vector mean the elements, in order |
| RoundTrip.ObjectRoundTrip | aos/flatbuffer_introspection.cc:289-345 | the printed layout of a table, at any depth, means the table |
| RoundTrip.PrintParse | aos/flatbuffer_introspection.cc:136-345 | parsing the printed text gives back the same table, on one line or several, for every schema and every printable table |
| Spoiling.DoomedStep | aos/json_to_flatbuffer.cc:183-334 | once a field or element of a table under construction differs from what is expected, no token repairs it |
| Spoiling.DoomedRun | aos/json_to_flatbuffer.cc:183-334 | so no further text makes the parser accept the expected table |
| Losses.LostFields | aos/flatbuffer_introspection.cc:313-338 | a printed object with a field that is lost, in any context, is never parsed to the table around it |
| Losses.PrintLoses | aos/flatbuffer_introspection.cc:136-345 | a table with a value that does not survive is not what its printed text is parsed to |
| Losses.PrintParseExactly | aos/flatbuffer_introspection.cc:136-345 | parsing the printed text gives the table back if and only if it is printable, for every schema, all options and every table without reals whose vectors are printed in full |
| Losses.IntegerSurvives | aos/flatbuffer_introspection.cc:13-46 | a table with an integer comes back from its printed text if and only if the integer is below 2^63 |
| Losses.VectorStringSurvives | aos/flatbuffer_introspection.cc:235-238 | a table with a vector of strings comes back from its printed text if and only if none of them has a quote, a backslash or a null character |
| Losses.LostValues | aos/flatbuffer_introspection.cc:228-238 | tables of each kind whose printed text is not parsed to them |
| Merge.CopyVector | aos/flatbuffer_merge.cc:111-322 | copying a vector keeps its elements in order |
| Merge.CopyTable | aos/flatbuffer_merge.cc:326-497 | merging with null, on either side, copies the whole tree |
| Merge.EmptyIsNeutral | aos/flatbuffer_merge.cc:326-497 | the empty table is neutral on both sides |
| Merge.JoinVectors | aos/flatbuffer_merge.cc:111-322 | merged vectors are concatenated, the first one in front |
| Merge.JoinAssociative | aos/flatbuffer_merge.cc:326-497 | merging the values of one field is associative |
| Merge.MergeAssociative | aos/flatbuffer_merge.cc:326-497 | merging tables is associative, with null tables allowed anywhere |
| Merging.PushReversed | aos/flatbuffer_merge.cc:219-235 | pushing from back to front puts the elements in order in front of what was there |
| Merging.AddVector | aos/flatbuffer_merge.cc:186-240 | the vector built is the concatenation |
| Merging.CopyReversed | aos/flatbuffer_merge.cc:281-306 | the offsets collected refer to copies of the elements, last to first |
| Merging.AddVectorOfOffsets | aos/flatbuffer_merge.cc:242-322 | the vector of strings or tables built is the concatenation, and nothing built before changes |
| Merging.AddOffsetField | aos/flatbuffer_merge.cc:336-426 | the object created for a field is the merge of its two values, which `FieldPaths.MergedAt` says path by path |
| Merging.FillTable | aos/flatbuffer_merge.cc:428-497 | scalars and then offsets fill in exactly the merged table |
| Merging.MergeFlatBuffers | aos/flatbuffer_merge.cc:326-497 | the two passes over the builder compute the recursive merge; at every path of sub-tables the new object has the second table's scalar or string if there is one, otherwise the first's, and the elements of both vectors |
| FieldPaths.MergedAt | aos/flatbuffer_merge.cc:79-106 | at the end of every path of sub-tables, with either table missing or not: the later scalar or string, the earlier one if there is no later one; the elements of both vectors in order; a sub-table exactly if one side has it |
| FieldPaths.JoinedMeaning | aos/flatbuffer_merge.cc:336-426 | the same for one field |
| Extents.HeaderMoved | aos/flatbuffer_merge.cc:557-567 | the span of a table's vtable determines where its fields are |
| Extents.StringMoved | aos/flatbuffer_merge.cc:546-553 | the span of a string, with its terminator, determines the string |
| Extents.VectorMoved | aos/flatbuffer_merge.cc:594-644 | the span of a vector field determines the vector and all it refers to |
| Extents.TableMoved | aos/flatbuffer_merge.cc:557-704 | any memory that agrees with a buffer on the span of a table holds, at the same distance, a well-formed table that decodes to the same tree |
| Coverage.SpanIsSmallest | aos/flatbuffer_merge.cc:557-704 | an aligned range holds the table and all it refers to if and only if it holds the computed span |
| Coverage.FieldInside | aos/flatbuffer_merge.cc:570-688 | a range holds the span extended by a field if and only if it held the span and holds the field |
| Placement.FieldNeeds | aos/flatbuffer_merge.cc:593-598 | the alignment is at least the size of the field's value or of its vector's elements |
| Placement.AlignmentSuffices | aos/flatbuffer_merge.cc:593-598 | the alignment of a table is at least the size of every value it has |
| Placement.TablePlacedMoved | aos/flatbuffer_merge.cc:557-704 | moving the span by a multiple of its alignment keeps every scalar, offset and length of the table, its vectors and the tables below it at a multiple of its size |
| BlockCopy.AlignLow | aos/flatbuffer_merge.cc:696-698 | the loop reaches the largest multiple not above |
| BlockCopy.AlignHigh | aos/flatbuffer_merge.cc:699-701 | the loop reaches the smallest multiple not below |
| BlockCopy.ExtentsTable | aos/flatbuffer_merge.cc:557-704 | the recursion computes the smallest aligned range that holds header, vtable, fields and everything referred to (`Coverage.SpanIsSmallest`), with an alignment that suffices for every value (`Placement.AlignmentSuffices`) |
| BlockCopy.ExtentsField | aos/flatbuffer_merge.cc:570-688 | the span and the alignment extended by one field, which `Coverage.FieldInside` and `Placement.FieldNeeds` say of its parts |
| BlockCopy.ExtentsElems | aos/flatbuffer_merge.cc:614-641 | the loop over what the elements of a vector refer to |
| BlockCopy.BlockCopied | aos/flatbuffer_merge.cc:722-736 | in a buffer as long as a multiple of the table's alignment, the span lies inside, and its bytes in front of anything decode to the table |
| BlockCopy.BlockPlaced | aos/flatbuffer_merge.cc:722-736 | in front of a multiple of its alignment, every value is at a multiple of its size from the end |
| BlockCopy.CopyFlatBuffer | aos/flatbuffer_merge.cc:722-736 | at the returned offset the buffer decodes to the source's tree and still holds what it held; if every value the table reaches was at a multiple of its size from the start of the memory, it is at one from the end of the buffer |
| Imports.MergeAllConcat | aos/configuration.cc:244-278 | merging two lists of files one after the other is merging their concatenation |
| Imports.ReadConfigMeaning | aos/configuration.cc:172-284 | reading succeeds if and only if the imports unfold to a finite tree in which no file repeats, and then gives one merge of all files in post-order, so importers override imports and later imports earlier ones |
| Imports.ReadConfigSays | aos/configuration.cc:240-281 | in terms of the parsed files alone: at every path a scalar or string is that of the last file in post-order that has one, a vector has the elements of all files in that order, and the imports are gone |
| Imports.UnfoldsUnique | aos/configuration.cc:260-278 | the tree of imports is determined by the path |
| Imports.FolderMeaning | aos/configuration.cc:134-140 | an import is read from the longest part of the path that ends in a separator, or from the current folder if there is none |
| Imports.ReadConfigFile | aos/configuration.cc:172-284 | the recursion over the shared visited set computes that and terminates on every finite set of files, cycles included; the configuration has at every path what the files say, imports before importers |
| Imports.ReadImportFiles | aos/configuration.cc:260-278 | the loop over the imports of one file merges each on top of those before it |
| Imports.VisitShrinks | aos/configuration.cc:244-255 | recording a file that is read for the first time leaves strictly fewer files to visit |
| Keyed.KeyTotal | aos/configuration.cc:72-84 | any two keys are equal or one is less |
| Keyed.KeyTransitive | aos/configuration.cc:72-84 | the order of keys is transitive |
| Keyed.KeyIrreflexive | aos/configuration.cc:72-84 | no key is less than itself |
| Keyed.LessMeaning | aos/configuration.cc:72-84 | strings are compared at the first place where they differ, by the smaller character or the earlier end |
| Keyed.NameThenType | aos/configuration.cc:72-84 | channels are compared by name, and by type where the names are equal |
| Keyed.InsertSorted | aos/configuration.cc:551-597 | inserting, or merging in place, keeps the set strictly sorted: no key moves |
| Keyed.InsertFind | aos/configuration.cc:551-597 | one entry is added or merged, every other key keeps its entry |
| Keyed.MergedSorted | aos/configuration.cc:533-600 | the merged set is strictly sorted |
| Keyed.MergedFind | aos/configuration.cc:533-600 | for each key the set holds exactly the fold of the entries of that key, in order |
| Keyed.SortedUnique | aos/configuration.cc:533-600 | a sorted set is determined by what it holds for each key |
| Keyed.OrderIrrelevant | aos/configuration.cc:533-600 | entries of different keys may be permuted |
| Keyed.MergeSorted | aos/configuration.cc:533-600 | a sorted set merges to itself |
| Keyed.MergedSize | aos/configuration.cc:574-575 | the count stays the same if and only if the keys were distinct |
| Configuration.DestinationsMerged | aos/configuration.cc:562-594 | a merged channel has one connection of each name: all of that name, merged in order |
| Configuration.MergeChannel | aos/configuration.cc:551-597 | merging channels keeps name and type |
| Configuration.MergeChannelMeaning | aos/configuration.cc:551-597 | the newest schema, connections merged by name, every other field merged as usual |
| Configuration.MergeApplication | aos/configuration.cc:602-620 | new arguments replace the earlier ones, and the name stays; `Configuration.MergeApplicationMeaning` says it of every field |
| Configuration.MergeApplicationMeaning | aos/configuration.cc:611-617 | every field but the arguments is the merge of both fields |
| Configuration.MergedFields | aos/configuration.cc:521-702 | three lists are replaced and every other field passes through |
| Configuration.ChannelsMeaning | aos/configuration.cc:533-600 | the channels are strictly sorted by name and type, one for each key that occurs, each the in-order merge of the input channels of its key |
| Configuration.ApplicationsMeaning | aos/configuration.cc:602-620 | the same for applications by name; `Entries.ApplicationEntries` says which input each value comes from |
| Configuration.NodesMeaning | aos/configuration.cc:622-637 | the same for nodes by name; `Entries.NodeEntries` says which input each value comes from |
| Entries.ChannelEntries | aos/configuration.cc:533-600 | sorted by name, then type; one channel of a name and type exactly if the input has one; at each path the last input channel's scalar or string, the elements of all their vectors, and the last schema |
| Entries.DestinationEntries | aos/configuration.cc:563-591 | a channel given once stays as it is; given more often, it has one destination of each name any of them has, with the last scalar or string given for it and all elements of its vectors |
| Entries.ApplicationEntries | aos/configuration.cc:602-620 | likewise for applications by name; the arguments are those of the last one that has any |
| Entries.NodeEntries | aos/configuration.cc:622-637 | likewise for nodes by name |
| Entries.MergeChannelAt | aos/configuration.cc:551-597 | merging two channels, path by path: the later schema, all else but the destinations merged as usual |
| Entries.MergeApplicationAt | aos/configuration.cc:611-617 | merging two applications, path by path: the later arguments, all else merged as usual |
| Entries.OtherFields | aos/configuration.cc:663-690 | every other field of the configuration is the input's; applications and nodes are listed exactly if they were |
| Entries.RefusedExactly | aos/configuration.cc:546-549 | merging fails exactly if an input channel with name and type is pinned without readers or has readers without being pinned, or the result is not valid |
| Configuration.ChannelOrderIrrelevant | aos/configuration.cc:533-600 | the result depends only on the in-order entries of each key, not on malformed entries nor on the order of different keys |
| Configuration.FoldNumber | aos/configuration.cc:551-597 | merging the channels of a key keeps the last read method and the last number of readers given |
| Configuration.PinnedInput | aos/configuration.cc:546-549 | the merged channels pass the check on readers if and only if the last settings of each key of the input do |
| Configuration.Idempotent | aos/configuration.cc:521-702 | merging the result again gives the same configuration, if and only if for each key of the input the last read method and the last number of readers given agree |
| Configuration.SecondRunFails | aos/configuration.cc:546-549 | for every schema, a configuration that is merged once and refused the second time |
| Configuring.SortedSet.Add | aos/configuration.cc:551-553 | inserts at the lower bound, or finds the entry of the key there |
| Configuring.MergeConnections | aos/configuration.cc:563-574 | the loop over the destinations merges them by name |
| Configuring.MergeTwoChannels | aos/configuration.cc:553-597 | the code for a channel that was there already computes the specified merge |
| Configuring.MergeChannels | aos/configuration.cc:533-600 | the loop over the channels computes the sorted merge, and stops exactly if readers and pinning disagree |
| Configuring.MergeApplications | aos/configuration.cc:602-620 | the loop over the applications computes the sorted merge |
| Configuring.MergeNodes | aos/configuration.cc:622-637 | the loop over the nodes |
| Configuring.MergeConfigurationTable | aos/configuration.cc:521-702 | the whole function computes the configuration that `Entries` describes entry by entry, and fails exactly where it is refused |
| Lookup.RewriteMeaning | aos/configuration.cc:460-519 | a folder map moves everything in the folder and keeps the rest of the name, a channel map renames one channel, both only if type and node allow |
| Lookup.RewriteFails | aos/configuration.cc:491-499 | exactly which matches stop the program or read an empty string |
| Lookup.RewriteConcat | aos/configuration.cc:460-519 | a list of maps is the composition of its parts, from last to first |
| Lookup.RuleMeaning | aos/configuration.cc:460-519 | a map matches by the name, type and source node of its match and renames to the name of its rename |
| Lookup.HandleMaps | aos/configuration.cc:460-519 | the reverse loop computes that composition |
| Lookup.SearchKey | aos/configuration.cc:775-777 | binary search finds the first entry that is not less |
| Lookup.BoundFinds | aos/configuration.cc:287-304 | binary search finds an entry if and only if linear search does, and the same one |
| Lookup.MergedSearchable | aos/configuration.cc:521-702 | every merged configuration can be searched |
| Lookup.GetApplication | aos/configuration.cc:1405-1437 | the index returned is i if and only if the i-th application has the name and the configuration has no nodes or the application's node list has the node's name; it stops if and only if there are nodes and the application of that name or the caller has none |
| Lookup.ResolveWith | aos/configuration.cc:735-770 | with an application of that name that runs on the node, its maps come first, and the global maps rewrite the outcome |
| Lookup.ResolveWithout | aos/configuration.cc:735-770 | without one, only the global maps, unless the application of that name stops the program |
| Lookup.GetChannel | aos/configuration.cc:735-803 | the one channel whose key is the rewritten name and the type, nothing if and only if there is none |
| Lookup.ChannelIndex | aos/configuration.cc:805-820 | the index of the i-th channel is i; stops for any other channel |
| Paths.SplitJoin | aos/configuration.cc:150-170 | splitting a joined path gives its pieces back |
| Paths.NormalFails | aos/configuration.cc:158-161 | the path is refused if and only if some beginning of it climbs above its start |
| Paths.NormalMeaning | aos/configuration.cc:150-170 | the result has only names, and leads to the same place as the path from every folder |
| Paths.NormalTwice | aos/configuration.cc:150-170 | normalising is idempotent |
| Paths.NormalUnique | aos/configuration.cc:150-170 | paths have the same normal form if and only if they always lead to the same place |
| Paths.RemoveDotDots | aos/configuration.cc:150-170 | the erasing loop terminates and computes the left-to-right walk |
| Encoder.AdvanceTracks | motors/motor.h:96-112 | a step of less than a quarter of a revolution keeps the tracker right |
| Encoder.RunTracks | motors/motor.h:96-112 | over any number of such steps the position is exact |
| Encoder.QuarterStepFails | motors/motor.h:96-112 | a step of a whole quarter can be lost |
| Encoder.ReadingFollows | motors/motor.h:114-120 | the reading follows the signed count around the wrap of the register |
| Encoder.Motor.SetCalibrationOffset | motors/motor.h:81-91 | the loop keeps the offset modulo a revolution and makes it at least one revolution |
| Encoder.Motor.WrappedEncoder | motors/motor.h:114-120 | the reading is the sum modulo a revolution if and only if the sum is not negative or a multiple; after calibration it is in range for both directions |
| Encoder.Motor.SetEncoderOffset | motors/motor.h:75-78 | tracking starts in agreement with the position asked for |
| Encoder.Motor.AbsoluteEncoder | motors/motor.h:96-112 | one step of the tracker |
| Encoder.Follow | motors/motor.h:96-112 | reading a motor over a whole run returns the true position each time |
| SinTable.IsPowerOf2Meaning | motors/math.h:31-33 | recognises exactly the powers of two |
| SinTable.Log2Bounds | motors/math.h:16-18 | the logarithm is the number of bits |
| SinTable.RatioChecks | motors/math.h:59-64 | the two checks hold if and only if the table size is a power of two |
| SinTable.IntermediatesFit | motors/math.h:46-50 | no intermediate result leaves 32 bits |
| SinTable.SamplePoint | motors/math.h:66-68 | the entry looked up is at the wanted angle, or half a table step above it if the scaled numerator is even |
| SinTable.ExactWhen | motors/math.h:66-68 | for a reduced ratio it is exact if and only if table size and denominator agree |
| SinTable.Initialize | motors/math.h:134-143 | the loop fills the table at the middle of each step |
| SinTable.LookupExact | motors/math.h:41-69 | the lookup is the function at the ratio times theta and a half |
| Actions.StepGood | aos/actions/actions.cc:7-45 | every operation keeps the queue's invariant |
| Actions.AlwaysGood | aos/actions/actions.cc:7-45 | over all runs: an action starts only when no other is current, each at most once, in the order of enqueueing; one waits only behind a current one that was cancelled |
| Actions.WaitingStarts | aos/actions/actions.cc:7-45 | a waiting action starts if and only if the current one is found done before another is enqueued or all are cancelled |
| Actions.OnlyLaterStart | aos/actions/actions.cc:7-45 | what was replaced or cleared never starts |
| Actions.ActionQueue.EnqueueAction | aos/actions/actions.cc:7-17 | starts the action, or cancels the current one and replaces the waiting one |
| Actions.ActionQueue.CancelCurrentAction | aos/actions/actions.cc:19-24 | cancels the current action only |
| Actions.ActionQueue.CancelAllActions | aos/actions/actions.cc:26-32 | cancels the current action and drops the waiting one |
| Actions.ActionQueue.DoTick | aos/actions/actions.cc:34-45 | promotes and starts the waiting action exactly when the current one is done |
| ThreadLocal.AlwaysGood | aos/complex_thread_local.h:72-89 | over all sequences of creating and clearing: no slot is listed twice, newest first, every object built is either listed or destroyed once |
| ThreadLocal.HoldsCreated | aos/complex_thread_local.h:72-89 | the list holds exactly the slots whose last operation was a creation |
| ThreadLocal.DestroyedOnce | aos/complex_thread_local.cc:19-25 | at the end of the thread every object ever built has been destroyed exactly once |
| ThreadLocal.SlotsStep | aos/complex_thread_local.h:72-89 | the steps on objects and on the list of slots correspond |
| ThreadLocal.Thread.Add | aos/complex_thread_local.cc:42-50 | the links then follow the list with the node in front |
| ThreadLocal.Thread.CreateIn | aos/complex_thread_local.h:72-80 | the linked list stays acyclic and gains the slot in front, unless it was there |
| ThreadLocal.Thread.Remove | aos/complex_thread_local.cc:52-72 | found exactly if listed, and the links then follow the list without the node |
| ThreadLocal.Thread.ClearIn | aos/complex_thread_local.h:84-89 | the slot leaves the list, and removing never dies |
| ThreadLocal.Thread.ExecuteDestructorList | aos/complex_thread_local.cc:19-25 | calls each initialised slot's destructor once, newest first |
| PrintInteger.WriteDigits | aos/print_field_helpers.h:16-31 | the digits in reverse if and only if they fit, without ever negating the value |
| PrintInteger.TurnAround | aos/print_field_helpers.h:32-34 | the swapping loop reverses the text in place and touches nothing else |
| PrintInteger.Print | aos/print_field_helpers.h:10-36 | prints the decimal notation if and only if it fits, takes exactly its length from the room, and leaves the rest of the buffer alone |

## Left out

- Parsing and printing of floating point numbers: a printed real is any text given by a parameter (`Options.reals`), a parsed one keeps its text, and whether a text converts is a parameter; printable tables have no reals.
- Structs, unions and union type fields: the code refuses, drops or does not support them.
- `TruncatingStringVisitor` and the second printer built on it: it truncates for people to read, and nothing reads it back.
- `FieldAsDouble`, line numbers and all log messages of the tokenizer.
- The builder's byte layout during a merge: an offset there is the position of an object among those finished; the byte level is modelled for block copies, where the builder is a byte sequence that grows at its front.
- Printed reals and truncated vectors in `Losses.PrintParseExactly`: a real prints as a parameter says, and the text in place of a long vector can by chance be what it stands for.
- Signed overflow, which is undefined in the source: lengths and offsets are unbounded integers in `Buffer` and `Extents`, and `Encoder` wraps to 32 bits; `Encoder.Fits` says when nothing wraps.
- Buffers with unsigned offsets that do not point forward: `Buffer.OffsetAt` asks for offsets of at least four, as every builder makes them.
- Which file a path names (existence, `.bfbs` next to `.json`, extra import paths, `realpath`) and the parsed content of the files: parameters of `Imports`.
- `ValidateConfiguration` apart from the order of the channels: the rest of its checks is the parameter `valid` of `Configuration`.
- Configuration.MergeChannel: asks that the destinations of channels that share a key have names, because the source compares the names without looking whether they are there.
- The container behind the sorted sets: a sorted sequence with unique keys.
- The schema-adding overload of `MergeConfiguration` and the node, tag and logger queries of configuration.cc: copying and one-loop lookups.
- Lookup.ChannelIndex: pointer identity is the position at which the channel stands in the configuration.
- `ApplicationShouldStart` as a loop: it is a search through a list of names, modelled as membership.
- Thread switching, `pthread` keys and memory allocation in the thread-local list: one thread's list is modelled, objects are numbers.
- What an action does between its start and its end: whether it still runs is a parameter of each tick.
- Sine and cosine values: the table lookup is stated for any function with the period of one turn.
- Registers, interrupts and everything else in motors/ that drives hardware.
