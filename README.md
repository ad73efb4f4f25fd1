# linkermapviz: the map parser and the size aggregation, in Dafny

linkermapviz reads the map file GNU ld writes and draws one treemap per
output section, sized by the object files and archives that contribute to
it. This project models the part of the tool that decides what is drawn:

- **`parseSections`** finds the `Memory Configuration` line. It then runs a
  cursor over the rest of the text and matches two line shapes:
  - an *entry*: a name, a hexadecimal offset and size, and an optional
    comment naming the object file;
  - a *symbol line*: sixteen blanks, an address and a symbol name.

  From these it builds a three-level tree: output sections, their
  input-section contributions, and the symbols of each contribution.
- **`Objectfile.__init__`** strips the name and splits the comment into a
  path and an optional archive member, `lib.a(obj.o)`. The path's last
  `/`-segment becomes the *basepath*, the key the aggregation groups by.
- **The aggregation in `main`** takes the `.text`, `.data`, `.bss` and
  `.rodata` sections. For each one it:
  - sorts the contributions by basepath and sums the sizes per basepath;
  - drops the ignored file names;
  - ranks the groups largest first;
  - reports the first N and the total.

Files:

- `wrappers.dfy`: `Option` and `Result`.
- `text.dfy`: Python's `str.strip()`, `int(v, 16)` and `'{:x}'`, and the
  order of `str` values.
- `objectfile.dfy`: the node type and its constructor.
- `scanner.dfy`: the two line patterns, as matchers that run at a cursor.
  Each one follows the one path Python's backtracking can take to a match:
  - the lazy name is the shortest prefix of the line that a tail follows;
  - only when there is none is a whole line of 14 or more characters,
    together with its line break, taken as the name.

  The matchers take blank runs one blank at a time. Lemmas beside them prove
  that this reads the same fields as taking each run whole.
- `parser.dfy`: the anchor search and the scanning loop, as methods with
  loops. They are proved against `Step`/`Scan`, a functional statement of
  one loop turn and of the whole loop, and the tree's properties are
  proved about `Scan`.
- `aggregate.dfy`: grouping, filtering, ranking, top N and total. The loops
  are methods, each proved against specification functions.
- `samples.dfy`: a worked archive-member comment.

Python's `None` results and exceptions become `Result` values:

- a missing anchor is `AnchorNotFound`;
- an indented entry before any section (the IndexError of `sections[-1]`)
  is `OrphanChild`;
- the TypeError of `sorted()` on a missing basepath is `UnorderableBasepath`;
- the IndexError of the top-N loop is `IndexOutOfRange`.

## Model

| member | source | states |
|---|---|---|
| Text.Strip | linkermapviz/__init__.py:19 | the result neither starts nor ends with whitespace, is empty exactly when the name is all whitespace, and is a window of the input with only whitespace cut off on either side |
| Text.IsSpace | linkermapviz/__init__.py:19 | the characters str.isspace() accepts, which str.strip() removes; Strip's contract is stated in terms of it |
| Text.StripIdempotent | linkermapviz/__init__.py:19 | stripping an already stripped name changes nothing |
| Text.HexValue | linkermapviz/__init__.py:70-72 | a hexadecimal field is zero exactly when every digit is '0' (the zero-size test of line 74) |
| Text.FormatHex | linkermapviz/__init__.py:30 | `{:x}` writes at least one hexadecimal digit, a leading '0' only for zero, and a single digit exactly below 16 |
| Text.HexRoundTrip | linkermapviz/__init__.py:70-72 | `int(v, 16)` reads back any number `{:x}` wrote |
| Text.HexLeadingZero | linkermapviz/__init__.py:70-72 | a leading '0' does not change the value `int(v, 16)` reads |
| Text.HexLeadingZeros | linkermapviz/__init__.py:70-72 | any zero padding, as in the fields ld writes, does not change the value |
| Text.HexValueIgnoresCase | linkermapviz/__init__.py:53-54 | under re.I, fields that differ only in the case of their letters have the same value |
| Text.LexLessIrreflexive | linkermapviz/__init__.py:106 | no basepath sorts before itself |
| Text.LexLessTransitive | linkermapviz/__init__.py:106 | str `<` is transitive |
| Text.LexLessTotal | linkermapviz/__init__.py:106 | any two distinct basepaths are ordered one way or the other |
| Text.LexLess | linkermapviz/__init__.py:106 | Python's str `<`: code point by code point, a proper prefix first; its meaning is stated by the lemmas around it |
| Text.LexLessPrefix | linkermapviz/__init__.py:106 | a proper prefix sorts first, and no string sorts before one of its own prefixes |
| Text.LexLessFirstDifference | linkermapviz/__init__.py:106 | at the first code point where two strings differ, that code point decides their order |
| ObjectFiles.SplitFrom | linkermapviz/__init__.py:25 | trying path lengths from `k` upwards finds the shortest one after which a `(member)` group ends the comment, or takes the whole comment |
| ObjectFiles.SplitComment | linkermapviz/__init__.py:25 | the path is the shortest non-empty prefix followed by `(` + text without `)` + `)` and the member is that text; with no such prefix the path is the whole comment and there is no member |
| ObjectFiles.Basename | linkermapviz/__init__.py:26 | the basepath is a suffix of the path without '/', preceded by '/' unless it is the whole path |
| ObjectFiles.NewObjectfile | linkermapviz/__init__.py:17-27 | the name is stripped; offset and size are kept; there are no children; without a (non-empty) comment the path is (None, None) and there is no basepath; otherwise the path is the comment's split and the basepath is the basename of its file part |
| Samples.SplitArchiveMember | linkermapviz/__init__.py:25 | `/l/c.a(p.o)` splits into the path `/l/c.a` and the member `p.o` |
| Samples.ArchiveMember | linkermapviz/__init__.py:24-26 | the contribution from `/l/c.a(p.o)` is grouped under the basepath `c.a` |
| Scanner.SkipRun | linkermapviz/__init__.py:53-54 | a greedy run of one character: every character in it is that one and the next is not |
| Scanner.LineEnd | linkermapviz/__init__.py:62 | `s.index('\n', pos)`: the first line break at or after the cursor, or the end of the text when there is none |
| Scanner.HexField | linkermapviz/__init__.py:53-54 | `0x` (or `0X`) and a non-empty greedy run of digits, read as `int(v, 16)`; none exactly when the field does not start there |
| Scanner.SpacedText | linkermapviz/__init__.py:53-54 | `[ ]+(.+)` over the rest of a line: everything before the text is blanks and the text runs to the line break; when the rest is all blanks (two or more) the text is the single last blank; none exactly when the rest is empty, does not start with a blank, or is one blank |
| Scanner.Trailer | linkermapviz/__init__.py:53 | none exactly when the line has no line break, or has text after the size that is not a blank-led comment; no comment exactly when the line ends right after the size; otherwise the comment is the blank-led text up to the line break; the match runs over the whole run of line breaks after the line |
| Scanner.Tail | linkermapviz/__init__.py:53 | from the start of the tail or from inside either blank run, a match ends just after the last of a run of '\n', and its comment has no line break |
| Scanner.SecondGapIsGreedy | linkermapviz/__init__.py:53 | inside the blanks before the size, taking blanks one at a time reads the same as taking the whole blank run, then the size field `0x<hex>`, then the trailer |
| Scanner.OffsetSkipsBlank | linkermapviz/__init__.py:53 | one more blank before the offset field changes nothing the greedy reading reads |
| Scanner.NoOffsetField | linkermapviz/__init__.py:53 | without an offset field followed by a blank, neither reading matches |
| Scanner.OffsetThenBlank | linkermapviz/__init__.py:53 | an offset field followed by a blank: both readings go on to the size with that offset |
| Scanner.OffsetField | linkermapviz/__init__.py:53 | at a non-blank, both readings agree on the offset field and all that follows |
| Scanner.FirstGapIsGreedy | linkermapviz/__init__.py:53 | inside the blanks before the offset, taking blanks one at a time reads the same as whole blank runs, offset field, at least one blank, size field and trailer |
| Scanner.MatchTail | linkermapviz/__init__.py:53 | the part after the name starts with a blank and ends after a run of line breaks, with a one-line comment |
| Scanner.MatchTailIsGreedy | linkermapviz/__init__.py:53 | the part after the name matches exactly when it is a blank run, `0x<hex>`, a blank run, `0x<hex>` and the trailer; the offset and size are those fields' values and the comment is the trailer's |
| Scanner.FirstTail | linkermapviz/__init__.py:53 | the first position in a range where the part after the name matches, or none when no position does |
| Scanner.ShortName | linkermapviz/__init__.py:53 | the `.+?` alternative takes the shortest one-line name after which the tail matches, capturing the name and the tail's fields; none exactly when no name on the line fits |
| Scanner.LongName | linkermapviz/__init__.py:53 | the `.{14,}\n` alternative takes the whole line of 14 or more characters with its line break, capturing the tail of the next line; none exactly when the line is shorter, is the last one, or the next line is no tail |
| Scanner.MatchEntry | linkermapviz/__init__.py:53-58 | a match captures its name and fields at the cursor, consumes at least one '\n' and ends at the last of a run of them; a one-line name is the shortest that fits; a name with a line break is a whole line of at least 14 characters on which no shorter name fitted; none exactly when no name on the line fits and the long-line alternative fails too |
| Scanner.SymbolTail | linkermapviz/__init__.py:54 | from the address, a symbol line starts with '0', ends after a run of line breaks and names a non-empty symbol without a line break |
| Scanner.SymbolTailReads | linkermapviz/__init__.py:54 | the address part matches exactly when it has the field `0x<hex>`, a line break, and a blank-led name before it; the offset is the field's value and the name is the text after the blanks |
| Scanner.SymbolFrom | linkermapviz/__init__.py:54 | from inside the sixteen blanks, a match has blanks up to the address, which starts with '0', ends after a run of line breaks and names a non-empty symbol without a line break |
| Scanner.SymbolFromIndent | linkermapviz/__init__.py:54 | when the rest of the indentation is blanks, taking them one at a time reads the same as the address part |
| Scanner.SymbolFromNoIndent | linkermapviz/__init__.py:54 | when the rest of the indentation is not all blanks, there is no match |
| Scanner.MatchSymbol | linkermapviz/__init__.py:54 | a symbol line starts with exactly sixteen blanks and then '0', ends after a run of line breaks, and has a non-empty one-line name |
| Scanner.MatchSymbolIndent | linkermapviz/__init__.py:54 | the symbol pattern is sixteen blanks followed by the address part, and nothing otherwise |
| Scanner.MatchSymbolReads | linkermapviz/__init__.py:54 | no match exactly when the sixteen blanks, the address field, the line break or the blank-led name is missing; the offset is the address field's value, the name is the rest of the line after its blanks, and the match runs over the line breaks that follow |
| MapParser.LineStop | linkermapviz/__init__.py:43 | readline() returns one line, up to and including its '\n', or the rest of the text; it always advances |
| MapParser.FindAnchor | linkermapviz/__init__.py:40-50 | returns the start of the first line that strips to `Memory Configuration`, and none exactly when no line does |
| MapParser.FirstAnchorLineUnique | linkermapviz/__init__.py:41-48 | the first anchor line is unique |
| MapParser.Kept | linkermapviz/__init__.py:74 | the test `section != '*default*' and size > 0` on the raw name; Step states what it decides |
| MapParser.Indented | linkermapviz/__init__.py:76 | `section.startswith(' ')` on the raw name; Step states what it decides |
| MapParser.AppendChild | linkermapviz/__init__.py:77 | the tree keeps its length and every section but the last; the last section keeps its fields and gets the one child appended to its children |
| MapParser.AppendSymbol | linkermapviz/__init__.py:86 | appending a symbol is adding a batch of one; AppendSymbolAdds states how batches compose |
| MapParser.SymbolRun | linkermapviz/__init__.py:78-86 | the consecutive symbol lines from a position: they end where the symbol pattern fails, and there are none exactly when the run does not move |
| MapParser.SymbolRunCons | linkermapviz/__init__.py:78-84 | a run that starts with a symbol line is that symbol followed by the run after it |
| MapParser.AppendSymbolAdds | linkermapviz/__init__.py:86 | appending one symbol after a batch is the same as appending the longer batch |
| MapParser.AddSymbolsToNewChild | linkermapviz/__init__.py:77-86 | appending a contribution and then its symbols is appending the contribution already holding them |
| MapParser.RunAdvance | linkermapviz/__init__.py:78-84 | each symbol line read advances the cursor and extends the symbols read in input order |
| MapParser.RunDone | linkermapviz/__init__.py:79-81 | the inner loop stops, consuming nothing, at the first line that is not a symbol line, having read exactly the run |
| MapParser.ReadSymbols | linkermapviz/__init__.py:78-86 | the inner loop leaves the cursor at the end of the symbol run and appends exactly its symbols, in order, to the last contribution |
| MapParser.ReadStep | linkermapviz/__init__.py:78-86 | one turn of the symbol loop advances the cursor and keeps the invariant: the symbols read are a prefix of the run, and the tree is the start tree with exactly those symbols added |
| MapParser.Step | linkermapviz/__init__.py:57-88 | one turn: the cursor strictly advances; the loop stops only with no match and no '\n' left; a line that does not match is skipped, and the scan resumes just after its line break with nothing changed; `*default*` or zero-size entries add nothing; an indented kept entry with no section before it is the IndexError; any other kept entry adds exactly one node, as a child with its symbols or as a new section |
| MapParser.Advance | linkermapviz/__init__.py:57-88 | the loop body computes exactly `Step` |
| MapParser.Scan | linkermapviz/__init__.py:57-90 | the only failure is the IndexError of an orphan child, and a successful scan never removes a section |
| MapParser.ParseSections | linkermapviz/__init__.py:32-90 | AnchorNotFound exactly when no line strips to the anchor; otherwise the scan of the text after the first anchor line; every tree returned has the three-level shape |
| MapParser.EntryObjectShape | linkermapviz/__init__.py:74-75 | a kept entry's node has a positive size and a stripped name |
| MapParser.AppendSectionShape | linkermapviz/__init__.py:88 | appending a section keeps the tree's shape |
| MapParser.AppendChildShape | linkermapviz/__init__.py:77 | appending a contribution to the last section keeps the tree's shape |
| MapParser.StepShape | linkermapviz/__init__.py:74-88 | one turn keeps the tree's shape |
| MapParser.ScanShape | linkermapviz/__init__.py:57-90 | every tree the scan builds has the shape: sections and contributions of positive size with stripped names, sections carry no symbols, contributions carry no children |
| MapParser.ExtendsTransitive | linkermapviz/__init__.py:77-88 | growth by appends composes |
| MapParser.StepExtends | linkermapviz/__init__.py:76-88 | one turn only appends: earlier sections are untouched and the last keeps its fields and children |
| MapParser.ScanExtends | linkermapviz/__init__.py:57-90 | the whole scan only appends to the tree it starts from |
| Aggregate.Whitelisted | linkermapviz/__init__.py:100 | keeps exactly the sections named `.text`, `.data`, `.bss` or `.rodata` |
| Aggregate.WhitelistedOne | linkermapviz/__init__.py:100 | a single section is kept exactly when its name is whitelisted |
| Aggregate.WhitelistedConcat | linkermapviz/__init__.py:100 | the filter works piece by piece, so it keeps the input order and every repeat |
| Aggregate.KeyOf | linkermapviz/__init__.py:106 | a contribution has a known key exactly when it has a basepath |
| Aggregate.KeyLessIrreflexive | linkermapviz/__init__.py:106 | no key sorts before itself |
| Aggregate.KeyLessTransitive | linkermapviz/__init__.py:106 | the key order is transitive |
| Aggregate.KeyLessTotal | linkermapviz/__init__.py:106 | distinct keys are ordered |
| Aggregate.KeyLess | linkermapviz/__init__.py:106 | basepaths compare as Python str; its meaning is stated by the three lemmas above |
| Aggregate.SumsSnoc | linkermapviz/__init__.py:107 | one more contribution adds its size to the total and to its own key's sum only |
| Aggregate.SumForAbsent | linkermapviz/__init__.py:107 | a key with no contribution sums to zero |
| Aggregate.Insert | linkermapviz/__init__.py:106 | inserting one contribution adds it to the multiset, to the total and to its key's sum |
| Aggregate.InsertSorted | linkermapviz/__init__.py:106 | inserting into a key-sorted list keeps it sorted |
| Aggregate.SortByKey | linkermapviz/__init__.py:106 | sorted() by basepath returns a key-ordered permutation with the same total and the same sum per key |
| Aggregate.AnyUnknown | linkermapviz/__init__.py:106 | true exactly when some contribution has no basepath |
| Aggregate.GroupTotalConcat | linkermapviz/__init__.py:116-117 | the total of two lists of groups is the sum of their totals |
| Aggregate.GroupSameKey | linkermapviz/__init__.py:106-108 | a contribution continuing the current run adds its size to the last group and keeps the loop invariant |
| Aggregate.GroupNewKey | linkermapviz/__init__.py:106-108 | a contribution with a new key starts a group, with a key above every key seen, and keeps the loop invariant |
| Aggregate.GroupedAll | linkermapviz/__init__.py:106-108 | the groups of the sorted list are those of the unsorted children: one per basepath, ascending, each its basepath's sum, totalling all sizes |
| Aggregate.GroupRuns | linkermapviz/__init__.py:106-108 | the groupby loop over a sorted list yields ascending keys, one group per key present, each holding that key's sum, totalling the list |
| Aggregate.GroupSizes | linkermapviz/__init__.py:105-108 | TypeError exactly when two or more contributions are compared and one has no basepath; otherwise one group per distinct basepath, in ascending order, each the sum of its contributions, and the groups total the section's size |
| Aggregate.Unignored | linkermapviz/__init__.py:111 | keeps exactly the groups whose key is not an ignored file name |
| Aggregate.Ignored | linkermapviz/__init__.py:111 | `k in ignore_files`: a missing basepath is never ignored |
| Aggregate.UnignoredAscending | linkermapviz/__init__.py:111 | the filter keeps the ascending key order |
| Aggregate.UnignoredNothing | linkermapviz/__init__.py:111 | with no ignored files every group is kept |
| Aggregate.WithSizeConcat | linkermapviz/__init__.py:112 | the groups of one size in a concatenation are those of each part, in order |
| Aggregate.SlotKeepsOrder | linkermapviz/__init__.py:112 | inserting a group after every larger-or-equal one keeps the list non-increasing, and keeps ties in key order |
| Aggregate.SlotAddsGroup | linkermapviz/__init__.py:112 | that insertion adds exactly the one group |
| Aggregate.SlotAddsSize | linkermapviz/__init__.py:112 | that insertion adds the group's size to the total |
| Aggregate.SlotEndsItsSize | linkermapviz/__init__.py:112 | that insertion puts the group last among the groups of its size |
| Aggregate.RankStep | linkermapviz/__init__.py:112 | one insertion step keeps the ranking invariant |
| Aggregate.FindSlot | linkermapviz/__init__.py:112 | the slot lies after every group at least as large and before every smaller one |
| Aggregate.SortBySizeDesc | linkermapviz/__init__.py:112 | a permutation of the groups, non-increasing by size, in which the groups of each size keep their relative order (stability); groups given in ascending key order leave ties in ascending key order; the total is unchanged |
| Aggregate.Top | linkermapviz/__init__.py:113-114 | the first min(N, count) groups, as a prefix, and none when N is not positive |
| Aggregate.TopAsWritten | linkermapviz/__init__.py:113-114 | the loop as written fails with IndexError exactly when N exceeds the number of groups, and otherwise yields the first N |
| Aggregate.TopDefaultOnFewGroups | linkermapviz/__init__.py:113-114 | with fewer than ten groups the intended report at the default N of ten is all the groups |
| Aggregate.SumSizes | linkermapviz/__init__.py:116-117 | totalsize is the sum of the ranked groups' sizes |
| Aggregate.GroupsAreSums | linkermapviz/__init__.py:105-108 | a group is in `groupsize` exactly when its key is a basepath of the section and its size is that basepath's sum |
| Aggregate.ReportSection | linkermapviz/__init__.py:103-117 | fails exactly when sorted() would raise; otherwise the report names the section, ranks its unignored basepath sums largest first with ties in basepath order, lists exactly those groups, takes the first N, and totals them, which is the section's total when nothing is ignored |
| Aggregate.DescribesAppend | linkermapviz/__init__.py:103-117 | adding the next section's report keeps every report describing its own section |
| Aggregate.Aggregate | linkermapviz/__init__.py:98-117 | fails exactly when some whitelisted section cannot be sorted; otherwise one report per whitelisted section, in order, each describing its section |

## Left out

- Reading the file is left out: `open()`, `readline()` and `read()`. The
  input is the whole text as one string, after Python's universal-newline
  translation.
- Plotting is left out: the treemap layout and the bokeh calls, which are
  floating-point geometry and foreign libraries. So is the colour map
  built from `allFiles`, which only feeds the plot.
- The command line is left out: argparse and the entry point. `N` and the
  ignored file names are parameters; the default of 10 matters only for
  the finding below.
- Console output is left out. The `print` of each top-N line becomes the
  list of groups it would print.
- MapParser.ParseSections: `Objectfile` is a value here, not a mutable
  object. `sections[-1].children.append` replaces the last element with an
  updated copy. Nothing else refers to these nodes, so no aliasing is lost.
- ObjectFiles.NewObjectfile: Python keeps contributions and symbol tuples
  in the one list `children`. The model gives the tuples their own field,
  `symbols`.
- MapParser.ReadSymbols: the guard `if sections and sections[-1].children`
  always holds after a contribution was appended. The model appends
  without testing it.
- Aggregate.SortBySizeDesc: it builds the ranked list by stable insertion
  into a new sequence. It does not sort `grouped_obj` in place.
- Aggregate.GroupSizes: the TypeError is decided before sorting. The model
  does not say which comparison inside sorted() raises it.
- Aggregate.KeyLess: it also orders a missing basepath before every name.
  That extra case is never used where Python would compare, because such a
  list is rejected first.
- Aggregate.ReportSection: it uses the corrected top-N (`Top`). The loop as
  written is `TopAsWritten`; see below.
- Python's regular-expression engine is not modelled in general. Only the
  three patterns of the source are, as hand-written matchers.
- Python's full Unicode ordering is covered, since strings compare by code
  point. Locale-dependent map contents are not: the tool needs `LANG=C`,
  and the model takes the English anchor phrase.

## Findings

| source | as written | input that shows it | evidently intended | confidence | as-written member | corrected member |
|---|---|---|---|---|---|---|
| linkermapviz/__init__.py:113-114 | the top-N loop indexes the ranked groups N times without a bound check | a whitelisted section with fewer than ten basepath groups, at the default N of 10 (linkermapviz/__init__.py:187) | print the largest min(N, count) groups | not executed | Aggregate.TopAsWritten | Aggregate.Top |
