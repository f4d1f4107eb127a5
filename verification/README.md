# SLA tooling: verified models

Two pieces of the SLA compiler's tooling turn data into programs and tables that the compiler then trusts. This project
models both, with the part of the compiler that consumes their output, and proves what each chain promises from its
first input to its last reader.

**The SAB-audit registry** (`tools/sab_audit`). `gen_probes.py` reads the symbol spec, writes one probe program per
probe id, a manifest and the declared plane. `build_registry.py` joins the manifest with probe results through a nested
dictionary and writes the sorted `registry.tsv`. `emit_registry_zig.py` reads it back and prints a Zig table with a
first-match `lookup`, which `src/sab_audit.zig` consults. Every file on the way is text: `Strings`,
`Patterns`, `Ordering` and `Tsv` hold the text operations, the string order and the tab-separated files;
`ProbePrograms`, `DeclaredNames`, `GenProbes`, `BuildRegistry`, `EmitRegistry` and `SabAudit` the tools; `ZigTable` a
reader of the emitted Zig text; `RegistryFacts`, `HeadLines`, `EntryText`, `EmittedCode`, `EmittedTable`,
`RegistryFile`, `EmittedStamps`, `SurfaceNames`, `Pipeline`, `EndToEnd`, `FileLayouts` and `Promises` what is proved
about them. The result is `EndToEnd.LookupIsDirect`: what the emitted `lookup` answers, in terms of the spec, the
results and the declared names, with `Promises.DirectExactly` for when nothing else gets in.

**The rosetta generator** (`tools/generate_rosetta_sla_demos.py`). For each catalogue number it prints an SLA program
and computes in Python the value that the program must return. `Decimal`, `DemoName`, `Rosetta` and `Catalogue` model
the generator; `SlaSyntax`, `SlaLexer`, `SlaParser` and `SlaEval` the fragment of the language that it uses, with the
tokenizer and the precedence-climbing parser of the compiler; `RosettaLayout`, `RosettaText`, `RosettaRuns`,
`SourceNames`, `Companion`, `CompanionPromises` and `CallResolution` carry the proof. The result is
`Companion.CompanionPasses`: the printed text, tokenized, parsed and run, passes its own test for every number, and on
every integer width that holds its largest value; `CompanionPromises` says which value that is and that no other number
in the test would pass.

## How the model is built

A text is a `seq<char>`, a file a string, a directory a `map` from names to strings, a row a `map` from columns to
values. A `KeyError`, a missing file or the `IndexError` of an empty spec is a `Failure`. The loops of the Python tools
are methods with loops (`BuildIndex`, `ReadRegistry`, `AuditTree.Generate`, ...), each proved equal to a specification
function; the lemmas are about those functions. The files that `gen_probes.py` changes in place are fields of the class
`AuditTree`.

`ZigTable.Decode` is a reference reader of the emitted Zig text and has no counterpart in the repository: it reads the
members of the enum, the fields of the struct, the entry list with its string literals, and the code of `lookup` (the
loop, the field and the argument it compares, what it returns), and rejects anything else; of the comments it asks that
they hold no control character but the tab. `ZigTable.Ask` answers a symbol from what was read.

A function of the model is tied to statements that do not name it: the string order to `Precedes`, a program text to the
pieces of its template, a declared name to the ways to read its line, a file to its lines written out, a parse to the
tree that precedence asks for.

`SlaEval` is a reference semantics: `let`, assignment, half-open `for`, `if`, `return`, calls and `panic`, with an
overflow as a fault.

## Where the code promises less than it seems

- The generator writes the name of a std file into a note unescaped. A tab or a break cuts the note; a further line of
  the name becomes a row of its own. `NameBringsRow`: whatever the symbol, one file name puts it into an accepted table
  as `ok` on both backends, with no spec row, result or declaration of it. `DirectExactly` has the exact condition
  (`Contained`), checkable on the names before the call.
- A head stamp is taken from the environment. If it has a further line that is neither blank nor a comment, that line
  becomes the header of the registry, and the emitter fails or prints a table that is not valid Zig (`Harmless`).
- A symbol that starts with `#` is dropped by the emitter as a comment (`Visible`).
- A control character in a visible field, or one other than the tab in a recovered stamp, makes the emitted text invalid
  (`Printed`, `Showable`).
- A body line that starts like a stamp replaces the stamp (`StampsRecovered`).
- A spec row whose four manifest columns are all blank is dropped on the way through `manifest.tsv` (`Carried`). A
  blank probe id alone is not enough to drop it.
- The number check of the catalogue passes a listing with one number twice and another missing
  (`DuplicatePassesTheCheck`); `CatalogueComplete` has the exact condition.
- A directory name is printed unescaped into a comment and a string literal. One that leaves the comment is rejected
  (`CommentRejected`). One with a loose quote is rejected unless a parenthesis opens after that quote, and one that hides
  the closing quote always (`QuoteRejected`, with `QuotedNameFails` for `1_a"b`).
- The builder's introduction lists the phases `codegen` and `run` for the status `fail`. The code gives `fail` to every
  phase but `check`, and `checkfail` to a probe without a result.
- The generator's copy of `read_tsv` raises `IndexError` on a spec without lines; the builder's copy returns no rows.

## Model

| member | source | states |
|---|---|---|
| EndToEnd.LookupIsDirect | tools/sab_audit/emit_registry_zig.py:19-72 | For any spec, results, std surface and heads, through all three tools and every file between them: once the generator has succeeded, the builder succeeds iff the registry rows exist, and the emitted table is accepted iff the heads add no data line, every visible row can be printed and the recovered stamps can be shown; `lookup(sym)` is then null iff no visible row has `sym`, and otherwise carries the class, statuses and signature of its least row; there is one entry per visible row and the entries of a symbol are contiguous |
| Promises.DirectExactly | tools/sab_audit/gen_probes.py:85-89 | The table is accepted and says what the direct rows say, those joined from carried spec rows and one per declared name and file, iff moreover no name of a declaring std file brings a row with it |
| Promises.NameBringsRow | tools/sab_audit/gen_probes.py:88-89 | The input on which it fails: for any symbol, a two-line file name gives an accepted table with an `ok`/`ok` entry for it, though no direct row has it |
| Promises.EntryCount | tools/sab_audit/emit_registry_zig.py:60-65 | An accepted table has as many entries as there are carried spec rows plus declared names and files, when no name brings a row with it and no symbol looks like a comment |
| EndToEnd.GeneratorSucceeds | tools/sab_audit/gen_probes.py:28-70 | The generator succeeds iff the spec has a line, its rows have the manifest's columns, and the first row of each probe id names a template that exists and has the body that the template asks for |
| EndToEnd.RegistryOfAnyRun | tools/sab_audit/gen_probes.py:45-48 | What the generator finds in its directory makes no difference to the registry |
| EndToEnd.ManifestHasItsProbes | tools/sab_audit/gen_probes.py:50-70 | After a successful run the manifest reads back as the carried spec rows, same columns, same order, same count, and every probe id in it has its program, instantiated from the first spec row with that id |
| EndToEnd.BuilderIsDirect | tools/sab_audit/build_registry.py:57-106 | The builder succeeds iff the results are keyed and the registry rows exist, and the body that it sorts holds exactly their lines |
| EndToEnd.ManifestStage | tools/sab_audit/gen_probes.py:67-70 | Joining the rows read back from the manifest gives what joining the carried spec rows gives, errors included |
| SurfaceNames.DeclaredStage | tools/sab_audit/gen_probes.py:85-89 | What the builder reads of the declared plane, for any file names: each row with its note up to the first tab or break, and a row from each further line of the name that is not blank |
| SurfaceNames.StraysVisible | tools/sab_audit/gen_probes.py:88-89 | The emitter sees none of the rows that a name brings iff the name's further lines are blank or comments in their first seven columns |
| SurfaceNames.OrdinaryFile | tools/sab_audit/gen_probes.py:88-89 | A name without tab and break brings no row and keeps its note whole |
| Pipeline.RegistryAnswers | tools/sab_audit/build_registry.py:98-106 | For any heads and any rows of the registry's shape, statuses included: accepted iff heads are harmless, visible rows can be printed and stamps shown; then every symbol is answered from its least row. Heads on one line are harmless and shown as they are |
| Pipeline.HarmfulHead | tools/sab_audit/emit_registry_zig.py:30-39 | Whatever line stands before the header, the emitter fails or its table is rejected: the real header, read as a row, has no status |
| RegistryFile.RegistryReadBack | tools/sab_audit/emit_registry_zig.py:30-39 | What the emitter reads of a registry file, for any heads: the data lines of the heads, the header, then the visible body lines in order |
| RegistryFile.StampsRecovered | tools/sab_audit/emit_registry_zig.py:23-29 | The emitter recovers both break-free heads, stripped, unless a body line starts like a stamp; then the last such line in order wins |
| Strings.StripExact | tools/sab_audit/gen_probes.py:82 | Stripping takes the blanks off both ends and nothing else |
| Strings.AsciiSpaces | tools/sab_audit/gen_probes.py:82 | The ASCII characters that stripping takes off |
| EmittedTable.TableRoundTrip | tools/sab_audit/emit_registry_zig.py:41-76 | For any registry text: the emitter succeeds iff the rows have its columns, and the emitted text reads back as exactly the rows, in order, with a `lookup` that compares symbols, iff every row can be printed and the stamps can be shown; otherwise it is rejected |
| Pipeline.SortedLookup | tools/sab_audit/emit_registry_zig.py:67-72 | First match over sorted entries is the entry of the least row of the symbol, and is null iff no visible row has it |
| Pipeline.SortedContiguous | tools/sab_audit/build_registry.py:103 | In a sorted registry all entries of one symbol are adjacent |
| Pipeline.SymbolInterval | tools/sab_audit/build_registry.py:94-103 | Between two lines of one symbol, in string order, every line is of that symbol |
| Pipeline.ShapedLine | tools/sab_audit/emit_registry_zig.py:31-39 | A body line is read back as its row with identical fields, and is skipped iff its symbol starts with `#` or all columns are blank |
| Pipeline.ProbedSound | tools/sab_audit/build_registry.py:75-97 | Every row joined from files has exactly the registry's columns, no tab or line break in any, and statuses that the printed enum has |
| Pipeline.LeastIsUnique | tools/sab_audit/build_registry.py:103 | Two least rows of a symbol are one row, so the answer of `lookup` is determined |
| HeadLines.FileLinesConcat | tools/sab_audit/emit_registry_zig.py:23-24 | A text file in two pieces, the first ending in a line feed, has the lines of both, whatever carriage returns they hold |
| HeadLines.StampedLines | tools/sab_audit/build_registry.py:70-71 | A stamp stands before the first line of its head only; the further lines reach the file bare |
| RegistryFacts.ByteReproducible | tools/sab_audit/build_registry.py:65-106 | Any permutation of manifest rows, declared rows and results that do not contradict each other gives the identical registry text |
| RegistryFacts.StrayResultsIgnored | tools/sab_audit/build_registry.py:58-60 | Results of probes outside the manifest or of backends other than text and sab leave no trace |
| RegistryFacts.PickIsLast | tools/sab_audit/build_registry.py:58-60 | What the index holds for a probe and backend is the last row that speaks for them, and nothing iff no row does |
| RegistryFacts.ProbedRow | tools/sab_audit/build_registry.py:74-97 | A joined row keeps symbol, class, probe id and note; its statuses are probed ones, never `decl`; its signature is empty iff both are `ok`, and else has one segment per other backend, text first |
| RegistryFacts.Segments | tools/sab_audit/build_registry.py:80-93 | When a backend is ok, checkfail or fail, in terms of its last result, and that the one segment of a backend that is not ok names backend, phase and recorded evidence |
| RegistryFacts.SharedProbe | tools/sab_audit/build_registry.py:75-97 | Rows that share a probe share statuses and signature |
| RegistryFacts.JudgeStops | tools/sab_audit/build_registry.py:80-93 | A result stops the builder iff it lacks a column that its verdict is read from; the error names the first of them |
| RegistryFacts.ProbedStops | tools/sab_audit/build_registry.py:74-97 | What stops the builder at a manifest row, and in which order |
| RegistryFacts.BodyIsMap | tools/sab_audit/build_registry.py:74-97 | The manifest's body lines are made row by row: no row affects another's line |
| BuildRegistry.BuildIndex | tools/sab_audit/build_registry.py:57-60 | The nested dictionary answers every probe and backend as a backward scan of the results does, or the first key error |
| BuildRegistry.JoinRow | tools/sab_audit/build_registry.py:75-97 | The loop over the backends, reading the index, computes the row that the scan defines, or its error |
| BuildRegistry.JoinManifest | tools/sab_audit/build_registry.py:74-97 | The manifest loop yields the lines of all joined rows in manifest order, or stops at the first error |
| BuildRegistry.Build | tools/sab_audit/build_registry.py:41-106 | The whole builder computes the specified registry text, errors included |
| EntryText.EscapedIsEach | tools/sab_audit/emit_registry_zig.py:15-16 | Two whole-string replacements equal one per-character escape |
| EntryText.ReadZigStr | tools/sab_audit/emit_registry_zig.py:15-16 | Reading a printed literal gives the string and exactly what follows: the first unescaped quote is the closing one; it fails iff there is a control character |
| EntryText.EscapedInjective | tools/sab_audit/emit_registry_zig.py:15-16 | Distinct strings have distinct literals |
| EntryText.EntryRoundTrip | tools/sab_audit/emit_registry_zig.py:60-65 | An entry line is read back as its row iff its statuses are members of the enum and its literals printable, whatever else any field holds; otherwise it is rejected |
| EntryText.EntriesRoundTrip | tools/sab_audit/emit_registry_zig.py:60-66 | All printed entry lines are read back, in order, and nothing else is; one row that cannot be printed spoils them |
| EmitRegistry.ReadRegistry | tools/sab_audit/emit_registry_zig.py:30-39 | The comment- and header-skipping loop computes the table of the data lines |
| EmitRegistry.ReadStamps | tools/sab_audit/emit_registry_zig.py:25-29 | The stamp loop finds the last line of each stamp |
| EmitRegistry.Emit | tools/sab_audit/emit_registry_zig.py:19-76 | The whole emitter computes the specified Zig text, or the first missing column |
| ZigTable.FirstBySymbol | tools/sab_audit/emit_registry_zig.py:67-72 | A `lookup` that compares symbols answers the first entry with the symbol, or none iff no entry has it |
| EmittedCode.LookupRead | tools/sab_audit/emit_registry_zig.py:66-74 | The printed code of `lookup`, read back, loops over the entries, compares the symbol of each with the parameter, returns the entry on a match and null after the loop |
| EmittedCode.DeclarationsRead | tools/sab_audit/emit_registry_zig.py:43-59 | The printed import, enum and struct are read back as the four statuses and the five typed fields, and the entry list comes next, iff the stamps can be shown |
| EmittedStamps.StampsShown | tools/sab_audit/emit_registry_zig.py:23-46 | For any registry text: the comment at the top shows, for each stamp, what stands trimmed after the last line that starts with it, or a question mark iff no line does |
| EntryText.EntriesStop | tools/sab_audit/emit_registry_zig.py:60-65 | The emitter fails iff a row lacks a printed column; the error names the first such column of the first such row |
| GenProbes.ProbeDirectory | tools/sab_audit/gen_probes.py:45-65 | After a run the `.sla` files are exactly the spec's probe ids; each holds the template of the first row with that id, its body in every place for one; other files are untouched |
| GenProbes.SecondRunChangesNothing | tools/sab_audit/gen_probes.py:45-65 | Whatever was there before, a second run leaves the directory and the outcome as the first did |
| GenProbes.WriteProbesEffect | tools/sab_audit/gen_probes.py:50-65 | The same from any point of the loop: what it adds, from which row, and what it leaves |
| ProbePrograms.InstantiateExact | tools/sab_audit/gen_probes.py:57-61 | A program text is the template cut at the copies of the placeholder and joined again with the body; a template without one is copied and needs no body |
| ProbePrograms.OnePlace | tools/sab_audit/gen_probes.py:60-61 | With one place for the body, what stands before it and after it stays |
| ProbePrograms.InstantiateFails | tools/sab_audit/gen_probes.py:57-61 | Which error stops the generator at a row, iff: no template column, no such template, or no body for a template that asks for one |
| Patterns.ReplaceExact | tools/sab_audit/gen_probes.py:61 | Replacing is cutting at the copies of the pattern and joining the pieces with the other text |
| DeclaredNames.MatchDeclExact | tools/sab_audit/gen_probes.py:76-84 | The scan of a line finds a name iff there is any way to read the line as the pattern does |
| DeclaredNames.DeclaredExactly | tools/sab_audit/gen_probes.py:76-84 | A line declares a name iff it is blanks, a text that opens a function of that name, and blanks |
| DeclaredNames.IndentedDeclares | tools/sab_audit/gen_probes.py:82 | Indenting a line that declares a name does not hide it |
| GenProbes.DeclaredMembers | tools/sab_audit/gen_probes.py:77-84 | A name and a file are declared iff the file is an `.sla` file of the surface with a line that, without the blanks around it, opens a function of that name, `pub` or not |
| GenProbes.DeclaredPlaneOrderFree | tools/sab_audit/gen_probes.py:77-89 | The declared plane depends on the set of std files only |
| FileLayouts.GeneratedFiles | tools/sab_audit/gen_probes.py:67-89 | The two tables of a successful run, character by character: the manifest has a line for each spec row under its four columns; the declared plane a line for each declared name and file, each once, in the order of names and files |
| FileLayouts.RegistryFileText | tools/sab_audit/build_registry.py:69-106 | The registry of the first two tools, character by character: the banner, the two stamps, the header, and one line for each registry row, its seven fields in the header's order, the lines in the order of the alphabet |
| FileLayouts.LaterClass | tools/sab_audit/build_registry.py:94-103 | Of two visible rows of a symbol, `lookup` never answers from the one whose class comes later in the alphabet |
| Ordering.BelowMeaning | tools/sab_audit/build_registry.py:103 | The comparison of the sort: one string begins the other, or has the smaller character where they first differ |
| GenProbes.AuditTree.Generate | tools/sab_audit/gen_probes.py:40-91 | The whole generator, on the directory and the two files it overwrites, computes the specified run, also when it stops with an error |
| GenProbes.AuditTree.Clear | tools/sab_audit/gen_probes.py:45-48 | Unlinking one by one removes the `.sla` files and nothing else |
| Tsv.StageRoundTrip | tools/sab_audit/gen_probes.py:67-70 | A stage reads exactly the rows written before it, in order, but for wholly blank ones |
| Tsv.ReadTableFields | tools/sab_audit/build_registry.py:25-36 | No field or column name that was read holds a tab or a line break |
| Tsv.ReadTsv | tools/sab_audit/build_registry.py:25-36 | The reading loops compute the specified table |
| Tsv.ParsedColumn | tools/sab_audit/build_registry.py:31-35 | A row holds for each column the field at the last place of that column in the header, and an empty one where the line is too short; fields beyond the header are dropped |
| SabAudit.HardExactlyWhenBlocked | src/sab_audit.zig:229-282 | A hard finding exists iff some use has a targeted backend that failed |
| SabAudit.SilentIffFine | src/sab_audit.zig:229-282 | The audit is silent on a used symbol iff the registry has it `ok` on both backends |
| SabAudit.ProductionBlocks | src/sab_audit.zig:123-133 | A production build is blocked by a symbol iff its least registry row says that the probe failed on SAB |
| SabAudit.BlockedByEvidence | src/sab_audit.zig:229-282 | From spec and results through the whole pipeline: a symbol blocks a production build iff the carried spec row behind its least line has a probe whose last result on SAB is a failure past the checker |
| SabAudit.RunAudit | src/sab_audit.zig:213-227 | From the uses in any order, both sorts and the loop between them compute the sorted findings of the sorted uses |
| SabAudit.AuditOrderFree | src/sab_audit.zig:213-227 | The order in which the hash map yields the uses does not show in the findings |
| SabAudit.AuditMembers | src/sab_audit.zig:213-227 | The sorts lose no finding and add none |
| SabAudit.AuditReports | src/sab_audit.zig:213-282 | A finding is handed back iff some use gives rise to it: symbol, class, backend, severity by target, and the registry's evidence, marked in lenient mode |
| SabAudit.AuditInOrder | src/sab_audit.zig:671-684 | The uses come out in the order of symbols, the findings in that order and text before SAB |
| SabAudit.HardCount | src/sab_audit.zig:145-151 | The count is the number of hard findings |
| Companion.CompanionPasses | tools/generate_rosetta_sla_demos.py:35-116 | For every number, every width and every quote-safe name: the printed text, tokenized, parsed and run, passes its own test iff the name stays in its comment and the largest integer of the program fits; it never panics |
| Companion.CompanionPasses32 | tools/generate_rosetta_sla_demos.py:35-116 | In signed 32-bit integers, for every number up to 214748345, it passes iff the name stays in its comment |
| Companion.CompanionPasses64 | src/parser.zig:3275-3311 | The same in the 64-bit integers that the parser has for literals, for every number up to 922337203685477561 |
| CompanionPromises.CompanionComputes | tools/generate_rosetta_sla_demos.py:35-116 | The text declares the functions, `main` and the test called after the number in three digits, and `main` returns the value that the number stands for, written out |
| CompanionPromises.WrongNumberFails | tools/generate_rosetta_sla_demos.py:110-114 | With any other number in the test the companion fails, with the catalogue number as its code |
| CompanionPromises.SourceHeaded | tools/generate_rosetta_sla_demos.py:24-102 | The text opens with the two comments: the number in three digits, the rest of the name in title case, character by character |
| Companion.CommentRejected | tools/generate_rosetta_sla_demos.py:101-116 | A name that leaves its comment gives a text that is rejected, whatever it leaves there |
| Companion.QuoteRejected | tools/generate_rosetta_sla_demos.py:110-116 | A name that is not quote-safe gives a text that is rejected, unless a parenthesis opens after its first loose quote |
| Companion.QuotedNameFails | tools/generate_rosetta_sla_demos.py:110-116 | The name `1_a"b` gives a text that is rejected |
| Companion.SourceTokens | tools/generate_rosetta_sla_demos.py:101-116 | The text has the tokens of its program, and no others, iff the directory name can stand in a comment and in a string literal |
| Companion.OrdinaryName | tools/generate_rosetta_sla_demos.py:24-28 | A name without line feed, quote and backslash always can |
| Companion.RunValue | tools/generate_rosetta_sla_demos.py:47-98 | In all four variants the value function returns what Python computed, or overflows iff the width is too small |
| Companion.MainReturns | tools/generate_rosetta_sla_demos.py:105-108 | `main` returns it too |
| CallResolution.CallsResolve | tools/generate_rosetta_sla_demos.py:47-114 | Every call in any declaration of a companion goes to `panic` with one argument or to exactly one definition with as many parameters |
| Companion.DisjointNames | tools/generate_rosetta_sla_demos.py:31-32 | Programs for distinct numbers share no generated name |
| RosettaRuns.ExpectedIsNatural | tools/generate_rosetta_sla_demos.py:40-87 | Python's value is never negative, so no minus sign is printed, and it is no larger than the largest integer |
| RosettaRuns.PeakBound | tools/generate_rosetta_sla_demos.py:40-98 | The largest integer of the program is linear in the number |
| RosettaRuns.RunLoop | tools/generate_rosetta_sla_demos.py:72-83 | The emitted half-open loop, entered at any point, totals the numbers before its limit |
| RosettaText.ProgramText | tools/generate_rosetta_sla_demos.py:45-116 | Below its comments the formatted text is, character by character, the layout of one syntax tree |
| SlaLexer.LexProgram | src/lexer.zig:177-444 | The layout of any program of the fragment tokenizes to its tokens: none run together, none is split |
| SlaParser.ParseExprTokens | src/parser.zig:2976-3188 | Parsing the tokens of any expression gives that tree, with precedence and left association, and goes on with what follows; a literal out of range is the only failure |
| SlaParser.Precedence | src/parser.zig:2976-3188 | Of two operators in a row, the one on the right takes the middle operand iff it binds tighter: products over sums over comparisons over inequality, else to the left |
| SlaParser.InfixLevels | src/parser.zig:3730-3756 | Which tokens go on with an expression and how tightly: the eight levels of binary operators, `as`, and what opens a postfix |
| SlaParser.LiteralRange | src/parser.zig:3275-3311 | A literal is accepted iff it is below 9223372036854775808 |
| SlaParser.ParseProgramTokens | src/parser.zig:489-538 | Parsing the tokens of any program of the fragment gives the program, or fails iff a literal is out of range |
| SlaParser.ParseProgramBefore | src/parser.zig:489-538 | A program of the fragment in front of tokens that cannot be parsed cannot be parsed either |
| SourceNames.CommentEffect | src/lexer.zig:439-444 | A text put in a comment leaves no token if its further lines are blank or comments, and otherwise tokens that no declaration starts with |
| SourceNames.StringEnds | src/lexer.zig:177-444 | A string literal ends at its own closing quote iff its inside has no loose quote |
| DemoName.DemoNumberMeaning | tools/generate_rosetta_sla_demos.py:17-21 | The backtracking match finds a number iff a leading run of digits is followed by an underscore; it is the value of the whole run |
| DemoName.DemoNumberOfPrinted | tools/generate_rosetta_sla_demos.py:17-21 | Reading undoes printing for every number, any leading zeros and any rest |
| DemoName.DemoNumberOfPadded | tools/generate_rosetta_sla_demos.py:31-32 | It recovers the number from the suffix of the generated names |
| Decimal.PaddedInjective | tools/generate_rosetta_sla_demos.py:31-32 | Zero-padding never confuses two numbers |
| Decimal.PaddedExact | tools/generate_rosetta_sla_demos.py:31-32 | The suffix is the number in decimal with zeros in front up to three characters, and none beyond |
| Catalogue.CatalogueComplete | tools/generate_rosetta_sla_demos.py:163-173 | When the count check passes, number i + 1 is at index i for all i iff no number was selected twice |
| Catalogue.DuplicatePassesTheCheck | tools/generate_rosetta_sla_demos.py:172-173 | The check does not notice a duplicate that makes up for a gap |
| Catalogue.RunInOrder | tools/generate_rosetta_sla_demos.py:175-193 | A successful run over distinct numbers writes the companions of 1 to the limit, each once and in order, the file of each the text for its name |
| Catalogue.EveryFilePasses | tools/generate_rosetta_sla_demos.py:163-193 | Every file of a successful run with a quote-safe name passes its own test iff the name stays in its comment |
| Catalogue.ListingOrderFree | tools/generate_rosetta_sla_demos.py:163-171 | With distinct numbers, any permutation of the directory listing gives the same files |
| Catalogue.TiedInListingOrder | tools/generate_rosetta_sla_demos.py:171 | Directories of one number are written in the order of the listing |
| Catalogue.SelectedMembers | tools/generate_rosetta_sla_demos.py:164-170 | An entry is selected iff it is a directory whose name has a number in range |
| Catalogue.Generate | tools/generate_rosetta_sla_demos.py:162-193 | Selection, sort, check and writing compute the specified files, or none when the count is wrong |

## Left out

- Companion.CompanionPasses: asks for a quote-safe name. Of the others `QuoteRejected` shows most to be rejected; a name
  that closes the literal and opens a parenthesis can complete the test and start another, and then the text can
  pass, but it is not the program that was meant.
- Pipeline.RegistryAnswers: the stamps shown are those recovered from the registry text; they are given in terms of the
  heads for heads on one line.
- GenProbes.AuditTree.Generate: the probe directory is a flat map, so a probe id with a path separator, and a write that
  the file system refuses, are not modelled; the std files are given as a list of names and decoded texts (their order
  is proved not to matter).
- SlaLexer.LexProgram: floats, hexadecimal literals and template strings are one invalid token, which no generated text
  has; positions of tokens are not kept.
- SlaParser.ParseProgramTokens: statements, declarations and types beyond the fragment are one error; the type
  annotations that the fragment prints (`int`) are read and dropped.
- Companion.RunValue: lowering, type checking and code generation are not part of this model; `SlaEval` states what the
  program means, an overflow is a fault, and a comparison is 1 or 0.
- Unicode: `\d`, `\w` and `title()` are those of ASCII; `strip` and `isspace` follow Python on the characters of the
  basic plane. Encoding errors are not modelled.
- `git_head`, the environment, arguments, exit codes and console messages: heads and file contents are inputs.
- `regen.sh` and `run_matrix.sh`: results are any table.
- The README and index files of the rosetta catalogue, and the copying of `main.rs`.
- Python's limit on the number of digits that `int` accepts.
- Zig escapes other than backslash and quote in the reference reader: the emitter prints no other.
- SabAudit.RunAudit: the walk over a syntax tree that collects the uses is not modelled; they are an input, in any order.
- The compiler's other passes, the npm wrapper and the demo programs: no property that these tools depend on.
