# IllegalCheckClassScanner, modelled in Dafny

This project models the Android Lint detector `IllegalCheckClassScanner` of
CustomLintCheck. The detector flags bytecode instructions that call a
denylisted method or touch a denylisted field. Each offending call site is
reported once per message and source line.

The detector is an object with three mutable string sets:
`problemFunSet` (the method denylist), `problemFieldSet` (the field denylist) and
`reportIssues` (the keys already reported). Here it is the class
`IllegalCheck.IllegalCheckClassScanner`, with those three fields and a
`reports` log. The log stands for the diagnostics handed to the host.

- `BeforeCheckRootProject` runs two loops over the lines of the two
  configuration files. It adds every line that does not start with `#` to
  the matching set. A configuration file is `Option<seq<string>>`, where
  `None` is a file that is not a regular file. Blank lines are added as the
  empty string, as the code does.
- `CheckInstruction` builds the caller signature. It then classifies the opcode:
  - the four invoke opcodes are matched against the method set;
  - the four field get/put opcodes are matched against the field set;
  - a node whose type does not fit its opcode, or any other opcode, is ignored.

  On a match it builds the message and the key `"<message> <line>"`, and
  reports only when the key is new (`ReportOnce`).
- `problemFun`/`problemField` are the predicate `Denylisted` applied to the
  set of their family. `normalizeMethodPath`/`normalizeFieldPath` have
  identical bodies and are the single function `NormalizePath`.
- The pure function `Step` gives the effect of one `checkInstruction` call
  on the dedup set and the log. `CheckInstruction` is proved to follow it.
  The dedup lemmas are stated about `Step`.
- The source line is `Option<int>`. An absent line renders as `"null"`
  in the key, which is what Kotlin's `${location.start?.line}` does.
  Decimal rendering has a parser as its inverse. So the key determines the
  message and the line (`ReportKeyInjective`). This means deduplication
  merges exactly the diagnostics with the same message and line.

The object invariant `Valid()` says two things. `reportIssues` holds exactly
the keys of the emitted diagnostics. No two emitted diagnostics share both
message and line. The constructor establishes it and every method keeps it.

Opcode numbers (`GETSTATIC` = 178 … `INVOKEINTERFACE` = 185) are those of
the Java Virtual Machine Specification, chapter 6.

Two points of the code's behaviour are worth stating outright:
- **No reset between runs.** `beforeCheckRootProject` (lines 36-54) clears
  no set. The sets start empty only when the object is constructed (lines
  30-34). So entries and keys from an earlier load stay, and a violation
  already reported is not reported again after a second load.
  `BeforeCheckRootProject` says exactly this.
- **Absent line.** `${location.start?.line}` renders a missing line as the
  text `null` (lines 77 and 94), so the key ends in `" null"`
  (`AbsentLineKey`).

## Model

| member | source | states |
|---|---|---|
| Opcodes.IsInvoke | liblintcheck/src/main/java/io/github/shawlaw/liblintcheck/IllegalCheckClassScanner.kt:68-71 | the four invoke opcodes (INVOKEVIRTUAL, INVOKESPECIAL, INVOKESTATIC, INVOKEINTERFACE), numbered 182 to 185 |
| Opcodes.IsFieldAccess | liblintcheck/src/main/java/io/github/shawlaw/liblintcheck/IllegalCheckClassScanner.kt:85-88 | the four field get/put opcodes, numbered 178 to 181; none of them is an invoke opcode, so the two `when` branches never overlap |
| Text.StartsWith | liblintcheck/src/main/java/io/github/shawlaw/liblintcheck/IllegalCheckClassScanner.kt:41 | Kotlin's `startsWith`: the prefix is no longer than the string and agrees with it position by position |
| Text.ReplaceSlashes | liblintcheck/src/main/java/io/github/shawlaw/liblintcheck/IllegalCheckClassScanner.kt:110 | `replace("/", ".")` keeps the length, turns every `/` into `.` and leaves every other character where it was |
| Text.ReplaceSlashesKeepsSlashFree | liblintcheck/src/main/java/io/github/shawlaw/liblintcheck/IllegalCheckClassScanner.kt:110 | an owner without `/` passes through the replacement unchanged |
| Text.ReplaceSlashesLeavesNoSlash | liblintcheck/src/main/java/io/github/shawlaw/liblintcheck/IllegalCheckClassScanner.kt:110 | no `/` is left after the replacement, so replacing twice equals replacing once |
| Text.IntToDecimal | liblintcheck/src/main/java/io/github/shawlaw/liblintcheck/IllegalCheckClassScanner.kt:77 | an Int renders as a minus sign exactly when it is negative, followed by decimal digits only; the only rendering starting with `0` is `"0"`, and a negative number has no leading zero after the sign |
| Text.NatToDecimalRoundTrip | liblintcheck/src/main/java/io/github/shawlaw/liblintcheck/IllegalCheckClassScanner.kt:77 | reading the digits of a non-negative number gives the number back |
| Text.IntToDecimalRoundTrip | liblintcheck/src/main/java/io/github/shawlaw/liblintcheck/IllegalCheckClassScanner.kt:77 | parsing the rendering of any Int gives the Int back |
| Text.IntToDecimalInjective | liblintcheck/src/main/java/io/github/shawlaw/liblintcheck/IllegalCheckClassScanner.kt:77 | two line numbers render to the same text only when they are equal |
| IllegalCheck.IsComment | liblintcheck/src/main/java/io/github/shawlaw/liblintcheck/IllegalCheckClassScanner.kt:41 | a line is a comment iff it is non-empty and its first character is `#` |
| IllegalCheck.ConfigEntries | liblintcheck/src/main/java/io/github/shawlaw/liblintcheck/IllegalCheckClassScanner.kt:39-52 | the entries one file adds are exactly its non-comment lines when it is a regular file (`isFile`), and none otherwise |
| IllegalCheck.Uncommented | liblintcheck/src/main/java/io/github/shawlaw/liblintcheck/IllegalCheckClassScanner.kt:40-44 | the entries one file's lines add are exactly its lines that do not start with `#` |
| IllegalCheck.ConfigEntriesAreUncommentedLines | liblintcheck/src/main/java/io/github/shawlaw/liblintcheck/IllegalCheckClassScanner.kt:38-53 | a file contributes exactly its non-comment lines, blank lines included as `""`; a file that is not there contributes what an empty file does (nothing) |
| IllegalCheck.CommentLineIsSkippedExample | liblintcheck/src/main/java/io/github/shawlaw/liblintcheck/IllegalCheckClassScanner.kt:41-42 | lines `com.example.Foo.bar` and `# ignored` load as exactly `{"com.example.Foo.bar"}` |
| IllegalCheck.NormalizePath | liblintcheck/src/main/java/io/github/shawlaw/liblintcheck/IllegalCheckClassScanner.kt:118-120 | the normalised target has length \|owner\| + 1 + \|name\|; its first \|owner\| characters are the owner with `/` turned into `.`, then a `.`, then the name unchanged |
| IllegalCheck.NormalizePathOfDottedOwner | liblintcheck/src/main/java/io/github/shawlaw/liblintcheck/IllegalCheckClassScanner.kt:109-111 | with an owner free of `/`, the target is owner + `.` + name |
| IllegalCheck.NormalizePathExample | liblintcheck/src/main/java/io/github/shawlaw/liblintcheck/IllegalCheckClassScanner.kt:110 | owner `com/example/Foo` with name `bar` normalises to `com.example.Foo.bar` |
| IllegalCheck.CallerSignature | liblintcheck/src/main/java/io/github/shawlaw/liblintcheck/IllegalCheckClassScanner.kt:66 | the caller is the class name with `/` dotted, a `.`, the method name, then the descriptor left unmodified |
| IllegalCheck.InvokedMessage | liblintcheck/src/main/java/io/github/shawlaw/liblintcheck/IllegalCheckClassScanner.kt:76 | the method message starts with the caller and ends with the target followed by ` !`; its length is the caller, the 20 characters of ` has invoked method `, the target and 2 |
| IllegalCheck.AccessedMessage | liblintcheck/src/main/java/io/github/shawlaw/liblintcheck/IllegalCheckClassScanner.kt:93 | the field message starts with the caller and ends with the target followed by ` !`; its length is the caller, the 20 characters of ` has accessed field `, the target and 2 |
| IllegalCheck.Denylisted | liblintcheck/src/main/java/io/github/shawlaw/liblintcheck/IllegalCheckClassScanner.kt:105-116 | `problemFun`/`problemField`: membership of the normalised target in the given set; no contract of its own, its role is stated by `DenylistsAreNotCrossChecked` and `ClassificationIsStrict` |
| IllegalCheck.Violation | liblintcheck/src/main/java/io/github/shawlaw/liblintcheck/IllegalCheckClassScanner.kt:67-102 | the opcode classifier and message of `checkInstruction`; no contract of its own, its property is stated by `ClassificationIsStrict`, `DenylistsAreNotCrossChecked` and `OverloadsAreIndistinguishable` |
| IllegalCheck.MessagesTellFamiliesApart | liblintcheck/src/main/java/io/github/shawlaw/liblintcheck/IllegalCheckClassScanner.kt:76-93 | an "invoked method" message never equals an "accessed field" message of the same caller, so they never share a dedup key |
| IllegalCheck.ReportKey | liblintcheck/src/main/java/io/github/shawlaw/liblintcheck/IllegalCheckClassScanner.kt:77 | the dedup key `"<message> <line>"`; no contract of its own, its properties are stated by `ReportKeyInjective`, `KeySuffix` and `AbsentLineKey` |
| IllegalCheck.AbsentLineKey | liblintcheck/src/main/java/io/github/shawlaw/liblintcheck/IllegalCheckClassScanner.kt:77 | with no source line the key is the message followed by ` null` |
| IllegalCheck.LineText | liblintcheck/src/main/java/io/github/shawlaw/liblintcheck/IllegalCheckClassScanner.kt:77 | the key's line part is never empty and contains no space |
| IllegalCheck.LineTextRoundTrip | liblintcheck/src/main/java/io/github/shawlaw/liblintcheck/IllegalCheckClassScanner.kt:77 | the line part reads back as the line, with `null` for an absent line, so no number collides with "absent" |
| IllegalCheck.KeySuffix | liblintcheck/src/main/java/io/github/shawlaw/liblintcheck/IllegalCheckClassScanner.kt:77 | in `"<message> <line>"` the last space comes right before the line text and the key starts with the message |
| IllegalCheck.ReportKeyInjective | liblintcheck/src/main/java/io/github/shawlaw/liblintcheck/IllegalCheckClassScanner.kt:77-78 | equal dedup keys imply equal message and equal line |
| IllegalCheck.ClassificationIsStrict | liblintcheck/src/main/java/io/github/shawlaw/liblintcheck/IllegalCheckClassScanner.kt:67-102 | a message arises iff the node is a method node with an invoke opcode whose target is in the method set, or a field node with a get/put opcode whose target is in the field set; other opcodes and mismatched node types give none |
| IllegalCheck.DenylistsAreNotCrossChecked | liblintcheck/src/main/java/io/github/shawlaw/liblintcheck/IllegalCheckClassScanner.kt:105-116 | a method instruction's outcome does not depend on the field set, nor a field instruction's on the method set; an entry present only in the other set never matches |
| IllegalCheck.OverloadsAreIndistinguishable | liblintcheck/src/main/java/io/github/shawlaw/liblintcheck/IllegalCheckClassScanner.kt:105-111 | the target's descriptor plays no part in matching |
| IllegalCheck.Step | liblintcheck/src/main/java/io/github/shawlaw/liblintcheck/IllegalCheckClassScanner.kt:74-81 | the effect of one `checkInstruction` call on the dedup set and the log; no contract of its own, its properties are stated by `StepRecordsReportedKey`, `StepTwiceReportsOnce`, `SameMessageAndLineReportedOnce`, `DistinctLinesReportedSeparately` and `AbsentConfigReportsNothing` |
| IllegalCheck.StepRecordsReportedKey | liblintcheck/src/main/java/io/github/shawlaw/liblintcheck/IllegalCheckClassScanner.kt:74-81 | a call never removes a key; it emits a report iff it records a key that was new; the report carries the message of the violation, the line, the caller and the instruction |
| IllegalCheck.StepTwiceReportsOnce | liblintcheck/src/main/java/io/github/shawlaw/liblintcheck/IllegalCheckClassScanner.kt:78-81 | repeating a call with identical inputs emits nothing and records nothing |
| IllegalCheck.SameMessageAndLineReportedOnce | liblintcheck/src/main/java/io/github/shawlaw/liblintcheck/IllegalCheckClassScanner.kt:91-98 | two call sites with the same message on the same line get one diagnostic |
| IllegalCheck.DistinctLinesReportedSeparately | liblintcheck/src/main/java/io/github/shawlaw/liblintcheck/IllegalCheckClassScanner.kt:74-81 | when neither key was seen before, the same violation on two different lines is reported by the first call and again by the second |
| IllegalCheck.AbsentConfigReportsNothing | liblintcheck/src/main/java/io/github/shawlaw/liblintcheck/IllegalCheckClassScanner.kt:105-116 | with both denylists empty nothing is reported and nothing is recorded |
| IllegalCheck.KeyRecordedIffReported | liblintcheck/src/main/java/io/github/shawlaw/liblintcheck/IllegalCheckClassScanner.kt:78-80 | a key is among the keys of the emitted diagnostics iff a diagnostic with that message and line was emitted |
| IllegalCheck.IllegalCheckClassScanner.constructor | liblintcheck/src/main/java/io/github/shawlaw/liblintcheck/IllegalCheckClassScanner.kt:30-34 | all three sets and the log start empty, and the invariant holds |
| IllegalCheck.IllegalCheckClassScanner.BeforeCheckRootProject | liblintcheck/src/main/java/io/github/shawlaw/liblintcheck/IllegalCheckClassScanner.kt:36-54 | each denylist becomes its old contents plus the entries of its own file; the dedup set and the log are untouched; the invariant is kept |
| IllegalCheck.IllegalCheckClassScanner.CheckInstruction | liblintcheck/src/main/java/io/github/shawlaw/liblintcheck/IllegalCheckClassScanner.kt:60-103 | the denylists are unchanged; the dedup set and the log change as `Step` says; a diagnostic is emitted iff the instruction is a violation whose (message, line) was not emitted before; the invariant is kept |
| IllegalCheck.IllegalCheckClassScanner.ReportOnce | liblintcheck/src/main/java/io/github/shawlaw/liblintcheck/IllegalCheckClassScanner.kt:77-81 | afterwards the key is recorded; the key was already recorded iff that (message, line) was already emitted; a new (message, line) is appended to the log and its key added, an old one changes nothing |

## Left out

- File access (`File`, `isFile`, `readLines`): a configuration file is given as its lines, or `None` when it is not a regular file. Splitting text into lines and the file names `lint_illegal_methods.cfg`/`lint_illegal_fields.cfg` are outside the model.
- Read errors: `readLines()` can throw, which ends `beforeCheckRootProject` early. A failure on the field file (line 48) comes after the method set was already extended (lines 40-44), leaving a partial update. `Option<seq<string>>` has no error case, so read errors and that partial update are not modelled.
- String encoding: Kotlin strings are sequences of UTF-16 code units, while Dafny `string`s are sequences of Unicode scalar values, so strings containing a lone surrogate cannot be represented.
- The Lint host API (`Context`, `ClassContext.getLocation`, `context.report`): the line of the location is a parameter, and a report is an entry appended to `reports`. The location object itself and the `Issue` metadata (id, category, priority 10, severity FATAL) are not modelled.
- `getApplicableAsmNodeTypes`: this is the host's pre-filter to method and field nodes. The model accepts every node and shows that other nodes are ignored.
- The ASM tree classes: an instruction is the datatype `Insn` (opcode, owner, name, descriptor), the class is its internal name, the method is its name and descriptor.
- `IllegalCheckRegistry`: a registration wrapper with no logic. `MainActivity`: a demo app.
- Concurrency: the detector is driven by single-threaded callbacks.
- Line numbers are unbounded integers. Kotlin's `Int` is 32 bits, but the key text does not depend on the width.
