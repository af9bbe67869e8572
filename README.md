# Shell-script safety analyzer — a Dafny model

This project models the static safety check of *shell-text*, an Android app
that scans shell scripts (`.sh` files, or `.sh` files inside a `.zip`) for
risky commands, and of its JavaScript prototype. It covers four parts:

- **The app's analyzer** (`SecurityAnalyzer.analyzeShellScript`).
  - A script containing `ENC[`, `openssl enc` or `gpg --encrypt` is reported
    as encrypted, with no findings.
  - Otherwise, whole-content heuristics (compressed code, excessive escape
    sequences, renamed variables, Base58) add line-0 findings.
  - Then every line that is neither blank nor a comment is matched against a
    three-tier table of regular expressions (HIGH, MEDIUM, LOW).
  - A pattern is reported at most once per line. The command label is the
    trimmed match, or the first token of the line.
  - The explanation is the value of the first `COMMAND_EXPLANATIONS` entry
    whose key occurs in the pattern, or a default that depends on the
    severity.
- **The JavaScript variant** (`safety-check-improvement.js`). It has the same
  encryption test and its own heuristics:
  - `hasRenamedVariables` uses an identifier regex and reads an undeclared
    variable;
  - `hasExcessiveEscapes` also requires escapes on more than five lines;
  - `hasBase64Encoded` and `hasBase58Encoded` are present but their calls are
    commented out.

  Its line scan differs from the app's:
  - it does not de-duplicate patterns;
  - the label is the pattern with `\*` and `(?!…)` removed;
  - the explanation is looked up by that label.
- **The results screen** (`HomeScreen.kt`):
  - `isSafeCommand`;
  - the risk-file and safe-file counts;
  - the safe/risky split of a file card and its per-severity summary;
  - the groups of the detail dialog.
- **The HTML report's figures** (`ExportUtils.kt`): the statistics, the status
  of each file section, and the style of a finding.

## How the model is laid out

- **The regular-expression engine is a parameter.**
  - The app's engine is `KotlinAnalyzer.Engine`: `find(pattern, line)` and the
    matched text `group0(pattern, line)`.
  - The script's engine is a function `test(pattern, line)`.

  Every property is proved for every engine. Where the source's own small
  regular expressions matter, they are written out as Dafny functions: the
  escape searches, the identifier scan, the Base64 token shape and the
  Base58 alphabet.
- **Each analyzer appears twice.**
  - Specification functions say what the result is: `KotlinAnalyzer.Analyze`
    and `JsAnalyzer.Analyze`.
  - Imperative methods loop over lines, tiers and patterns as the source does:
    `AnalyzeShellScriptWith`, `ScanLines`, `ScanTiers` and `ScanTier`.
  - Each method is proved equal to its specification function. The properties
    are lemmas about those functions.
- **Tables are transcribed verbatim.** They live in `KotlinRules` and
  `JsRules`.
  - `KotlinRules.DangerousCommands` is the app's `DANGEROUS_COMMANDS`
    (app/src/main/java/com/tobapuw/shelltext/data/SecurityAnalyzer.kt:29-358):
    three tiers, HIGH, MEDIUM and LOW, each a list of pattern texts.
  - `KotlinRules.ExplanationDeclarations` lists the entries of the app's
    `COMMAND_EXPLANATIONS` in declaration order (same file, lines 360-626),
    and `KotlinRules.CommandExplanations` is the map built from them.
  - `JsRules.DangerousCommands` is the script's `DANGEROUS_COMMANDS`
    (safety-check-improvement.js:1-229), and `JsRules.CommandExplanations`
    its `COMMAND_EXPLANATIONS` object (lines 232-234).
  - These are constants, not functions. The lemmas that state what they
    hold are `KotlinProperties.KotlinLineFindingsRankSorted`,
    `JsProperties.ScriptTiersAnchored`, `JsProperties.RmRfLabel` and
    `JsProperties.ScriptFindingsExplainedByDefault`.
  - The app's `COMMAND_EXPLANATIONS` is a `mapOf`, that is, a
    `LinkedHashMap`. It is modelled from its declaration list by
    `OrderedTable.MapOf`: a repeated key keeps the position of its first
    declaration and the value of its last.
- **A JavaScript call can throw.** Its completion is
  `JsHeuristics.Outcome`: `Returned(value)` or `Threw(error)`.

## Behaviour worth knowing

- **The script's renamed-variable check throws.** `hasRenamedVariables`
  reads `shortVars`, which is declared nowhere in safety-check-improvement.js,
  once a script has at least ten identifiers averaging under 2.5 characters. That makes the whole analysis
  throw a `ReferenceError` (`JsProperties.AnalyzeThrows`,
  `JsProperties.ShortNamesMakeAnalysisThrow`). Otherwise the check returns
  `false`, so it never reports (`JsHeuristics.RenamedNeverReports`). The model
  keeps this behaviour as written.
- **The app explains some risky `cat` findings as safe.** The app's
  explanation table declares `"cat"` twice: as HIGH at line 367 and as LOW at
  line 539. The map keeps the first position and the last value, so a HIGH
  `cat … >` pattern gets the LOW "safe" explanation
  "安全：查看文件内容，对设备无害。". Because `"cat"` is declared before
  `"netcat"` (line 437) and `"ncat"` (line 438), and is a piece of
  `logcat`, the MEDIUM patterns for `netcat` and `ncat` (lines 162-163) and
  for `logcat` (line 267) get that same "safe" explanation too.
  `KotlinProperties.ExplanationFromDeclarations` states the rule that
  produces this.
- **Duplicate patterns behave differently in the two analyzers.** The app's
  MEDIUM tier lists `groupadd` and `groupdel` twice.
  - The app reports each pattern once per line
    (`KotlinProperties.HitPatternsDistinct`).
  - The script reports a repeated pattern as often as it is listed
    (`JsProperties.RepeatedRuleReportedTwice`).
- **The script's explanation table never applies.** Every pattern of the
  script starts with the anchor `^(\s*|.*\|\s*)`, and stripping keeps the
  anchor. No label therefore equals the table's only key, `netstat`, and
  every finding gets the default explanation of its severity
  (`JsProperties.ScriptFindingsExplainedByDefault`).
- **Three of the app's heuristics are placeholders.** `hasRenamedVariables`,
  `hasBase64Encoded` and `hasBase58Encoded` always return `false`.
  `hasBase64Encoded` is not called at all.

## Model

| member | source | states |
|---|---|---|
| Issues.ErrorResult | app/src/main/java/com/tobapuw/shelltext/ui/screens/HomeScreen.kt:1111-1115 | a file that cannot be read gives a failed result with its name and the message, not encrypted, with no findings and empty content, so it keeps the rule that a failed result carries no findings |
| Issues.AppendLine | app/src/main/java/com/tobapuw/shelltext/data/SecurityAnalyzer.kt:692-719 | appending the findings of the next line keeps every finding on its own line and the list in line order |
| Issues.HeuristicsFirst | app/src/main/java/com/tobapuw/shelltext/data/SecurityAnalyzer.kt:646-719 | line-0 heuristic findings followed by per-line findings are in line order, and the line-0 ones are exactly the leading ones |
| Text.Trim | app/src/main/java/com/tobapuw/shelltext/data/SecurityAnalyzer.kt:693 | `trim()` gives a piece of the text that neither starts nor ends with whitespace, with only whitespace before and after it in the text, and is empty exactly when the text is all whitespace |
| Text.FirstToken | app/src/main/java/com/tobapuw/shelltext/data/SecurityAnalyzer.kt:764 | the first token is a whitespace-free prefix, ended by whitespace or the end of the text |
| Text.FirstWordIsFirstToken | app/src/main/java/com/tobapuw/shelltext/data/SecurityAnalyzer.kt:764 | the first piece of `split("\\s+")` is that first token |
| Text.Lines | app/src/main/java/com/tobapuw/shelltext/data/SecurityAnalyzer.kt:630 | `split("\n")` always yields at least one line |
| Text.LineCount | app/src/main/java/com/tobapuw/shelltext/data/SecurityAnalyzer.kt:729-731 | there is one line more than there are line feeds, and the line lengths plus the separators add up to the text length |
| Text.SplitPartsHaveNoSeparator | safety-check-improvement.js:405 | no piece of a split holds a separator |
| Text.SplitPartsOccur | safety-check-improvement.js:405 | every piece of a split occurs in the text |
| Text.ContainsIffSomePartContains | app/src/main/java/com/tobapuw/shelltext/data/SecurityAnalyzer.kt:630-638 | a separator-free text occurs in the content exactly when it occurs in one of the lines |
| Text.Decimal | app/src/main/java/com/tobapuw/shelltext/data/ExportUtils.kt:280 | `Int.toString()` of a count is a non-empty string of digits that spells the count, with no leading zero |
| Tiers.RulesProvenance | app/src/main/java/com/tobapuw/shelltext/data/SecurityAnalyzer.kt:695-696 | every rule visited comes from one of the tiers, with that tier's severity |
| Tiers.TierRuleAt | app/src/main/java/com/tobapuw/shelltext/data/SecurityAnalyzer.kt:695-696 | the `i`-th pattern of tier `ti` is visited at position (rules of earlier tiers) + `i` |
| Tiers.RulesRankSorted | app/src/main/java/com/tobapuw/shelltext/data/SecurityAnalyzer.kt:29-358 | with the tiers listed from high to low, the rules are visited from the most to the least severe |
| Tiers.IssuesAtElements | app/src/main/java/com/tobapuw/shelltext/data/SecurityAnalyzer.kt:700-715 | the `j`-th finding is the report of the `j`-th selected rule |
| OrderedTable.KeyIndex | app/src/main/java/com/tobapuw/shelltext/data/SecurityAnalyzer.kt:360-626 | the first entry with a key, or none when no entry has it |
| OrderedTable.LastKeyIndex | app/src/main/java/com/tobapuw/shelltext/data/SecurityAnalyzer.kt:360-626 | the last entry with a key, or none when no entry has it |
| OrderedTable.MapOf | app/src/main/java/com/tobapuw/shelltext/data/SecurityAnalyzer.kt:360-626 | `mapOf` has distinct keys, no more entries than declarations, and exactly the declared keys |
| OrderedTable.MapOfKeepsLastValue | app/src/main/java/com/tobapuw/shelltext/data/SecurityAnalyzer.kt:360-626 | each key of the built map holds the value of its last declaration |
| OrderedTable.MapOfKeepsFirstPosition | app/src/main/java/com/tobapuw/shelltext/data/SecurityAnalyzer.kt:360-626 | entries come in the order of their keys' first declarations |
| OrderedTable.FindContained | app/src/main/java/com/tobapuw/shelltext/data/SecurityAnalyzer.kt:703 | `entries.find { text.contains(it.key) }?.value` is none exactly when no key occurs in the text, and otherwise the value of the first entry whose key occurs |
| OrderedTable.FindContainedInDeclarationOrder | app/src/main/java/com/tobapuw/shelltext/data/SecurityAnalyzer.kt:360-626 | looking a text up in `mapOf(decls)` finds the first declared key that occurs in it and returns that key's last declared value |
| Heuristics.EscapeAt | app/src/main/java/com/tobapuw/shelltext/data/SecurityAnalyzer.kt:735-738 | a `\x` followed by two hex digits, or a `\u` followed by four, starts at the position; its properties are in Heuristics.FindAllYieldsEscapes |
| Heuristics.FindAll | app/src/main/java/com/tobapuw/shelltext/data/SecurityAnalyzer.kt:734-740 | `Regex.findAll` (and `match` with `g`): the escapes found leftmost first, each search resuming after the previous match; Heuristics.FindAllCountsPositions and Heuristics.FindAllYieldsEscapes state what it returns |
| Heuristics.IsCompressedCode | app/src/main/java/com/tobapuw/shelltext/data/SecurityAnalyzer.kt:728-732 | the check holds exactly when the average line length exceeds 150 and there are fewer than 50 lines, stated without division |
| Heuristics.FindAllCountsPositions | app/src/main/java/com/tobapuw/shelltext/data/SecurityAnalyzer.kt:737-738 | the global search finds exactly as many matches as there are positions where an escape starts |
| Heuristics.FindAllYieldsEscapes | app/src/main/java/com/tobapuw/shelltext/data/SecurityAnalyzer.kt:735-738 | every match is a `\xHH` or `\uHHHH` escape that occurs in the content |
| Heuristics.HasExcessiveEscapes | app/src/main/java/com/tobapuw/shelltext/data/SecurityAnalyzer.kt:734-740 | the check holds exactly when more than 20 hex and unicode escapes start in the content |
| Heuristics.HasRenamedVariables | app/src/main/java/com/tobapuw/shelltext/data/SecurityAnalyzer.kt:742-745 | the app's check never reports |
| Heuristics.HasBase64Encoded | app/src/main/java/com/tobapuw/shelltext/data/SecurityAnalyzer.kt:747-750 | the app's check never reports |
| Heuristics.HasBase58Encoded | app/src/main/java/com/tobapuw/shelltext/data/SecurityAnalyzer.kt:752-755 | the app's check never reports |
| KotlinAnalyzer.Skipped | app/src/main/java/com/tobapuw/shelltext/data/SecurityAnalyzer.kt:692 | a line whose trimmed text is empty or starts with `#` is not examined; KotlinProperties.LineFindingsCount gives such a line no findings |
| KotlinAnalyzer.Explanation | app/src/main/java/com/tobapuw/shelltext/data/SecurityAnalyzer.kt:702-708 | the value of the first table entry whose key occurs in the pattern, else the severity's default text; KotlinProperties.ExplanationFromDeclarations states it against the declarations |
| KotlinAnalyzer.MakeIssue | app/src/main/java/com/tobapuw/shelltext/data/SecurityAnalyzer.kt:700-715 | the finding of one rule: 1-based line number, extracted label, line text, the rule's severity and its explanation; KotlinProperties.LineFindingsPlace and KotlinProperties.LineFindingsMatch state it |
| KotlinAnalyzer.LineIssues | app/src/main/java/com/tobapuw/shelltext/data/SecurityAnalyzer.kt:692-718 | nothing for a skipped line, else one finding per rule whose pattern matches and is not yet detected, in evaluation order; its properties are KotlinProperties.LineFindingsCount, LineFindingsComplete and LineFindingsRankSorted |
| KotlinAnalyzer.Analyze | app/src/main/java/com/tobapuw/shelltext/data/SecurityAnalyzer.kt:628-726 | the result of `analyzeShellScript`: encrypted with no findings, or the heuristic findings followed by every line's findings; KotlinProperties.AnalyzeShape states it, and KotlinAnalyzer.AnalyzeShellScriptWith proves the loops compute it |
| KotlinAnalyzer.EncryptedIffContentHasMarker | app/src/main/java/com/tobapuw/shelltext/data/SecurityAnalyzer.kt:633-637 | some line holds an encryption marker exactly when the whole content does |
| KotlinAnalyzer.HeuristicIssues | app/src/main/java/com/tobapuw/shelltext/data/SecurityAnalyzer.kt:646-689 | one MEDIUM line-0 finding per heuristic that holds (only two can), compressed code first and escapes last, each carrying the whole content |
| KotlinAnalyzer.ExtractMatchedCommand | app/src/main/java/com/tobapuw/shelltext/data/SecurityAnalyzer.kt:758-769 | the label is the trimmed match when the match is not blank, and otherwise the first token of the trimmed line; it is not empty when the line is not blank, has no surrounding whitespace, and occurs in the match or in the line |
| KotlinAnalyzer.CommandFallback | app/src/main/java/com/tobapuw/shelltext/data/SecurityAnalyzer.kt:764 | the fallback label is the first token of the trimmed line, which is not empty when the line is not blank and occurs in the line |
| KotlinAnalyzer.DetectedMembers | app/src/main/java/com/tobapuw/shelltext/data/SecurityAnalyzer.kt:694-701 | a pattern is in the detected set exactly when some rule with that pattern has matched |
| KotlinAnalyzer.ScanStep | app/src/main/java/com/tobapuw/shelltext/data/SecurityAnalyzer.kt:697-701 | a rule reports exactly when its pattern is not yet detected and matches |
| KotlinAnalyzer.AnalyzeShellScriptWith | app/src/main/java/com/tobapuw/shelltext/data/SecurityAnalyzer.kt:628-726 | the imperative analysis returns the specified result for any rule table and explanation table |
| KotlinAnalyzer.ScanLines | app/src/main/java/com/tobapuw/shelltext/data/SecurityAnalyzer.kt:692-719 | the loop over the lines appends the findings of every line, in order |
| KotlinAnalyzer.ScanLine | app/src/main/java/com/tobapuw/shelltext/data/SecurityAnalyzer.kt:693-718 | a blank or comment line adds nothing; any other line adds its findings |
| KotlinAnalyzer.ScanTiers | app/src/main/java/com/tobapuw/shelltext/data/SecurityAnalyzer.kt:694-718 | scanning the tiers of one line appends one finding per reporting rule, in evaluation order |
| KotlinAnalyzer.ScanTier | app/src/main/java/com/tobapuw/shelltext/data/SecurityAnalyzer.kt:696-717 | the loop over one tier's patterns keeps the detected set and the findings equal to those of the rules tested so far |
| KotlinAnalyzer.AnalyzeShellScript | app/src/main/java/com/tobapuw/shelltext/data/SecurityAnalyzer.kt:628-726 | with the app's own tables, the analysis returns the specified result |
| KotlinProperties.HitIndicesMembers | app/src/main/java/com/tobapuw/shelltext/data/SecurityAnalyzer.kt:694-701 | a rule reports on a line exactly when its pattern matches and it is the first rule with that pattern |
| KotlinProperties.HitIndicesIncreasing | app/src/main/java/com/tobapuw/shelltext/data/SecurityAnalyzer.kt:695-696 | the reporting rules come in evaluation order, each once |
| KotlinProperties.HitPatternsDistinct | app/src/main/java/com/tobapuw/shelltext/data/SecurityAnalyzer.kt:694-701 | no two findings of a line come from the same pattern text |
| KotlinProperties.HitPatternsComplete | app/src/main/java/com/tobapuw/shelltext/data/SecurityAnalyzer.kt:694-701 | every pattern that matches on the line is reported by one rule |
| KotlinProperties.HitCount | app/src/main/java/com/tobapuw/shelltext/data/SecurityAnalyzer.kt:694-701 | a line has as many findings as it has distinct matching patterns |
| KotlinProperties.LineFindingsPlace | app/src/main/java/com/tobapuw/shelltext/data/SecurityAnalyzer.kt:709-715 | every finding of a line carries its 1-based number and its text |
| KotlinProperties.LineFindingsMatch | app/src/main/java/com/tobapuw/shelltext/data/SecurityAnalyzer.kt:700-715 | every finding of a line reports a rule whose pattern matches there |
| KotlinProperties.LineFindingsCount | app/src/main/java/com/tobapuw/shelltext/data/SecurityAnalyzer.kt:693-701 | a blank or comment line has no findings; any other has one per distinct matching pattern |
| KotlinProperties.LineFindingsComplete | app/src/main/java/com/tobapuw/shelltext/data/SecurityAnalyzer.kt:693-715 | on an examined line, the first rule of every matching pattern is reported |
| KotlinProperties.LineFindingsRankSorted | app/src/main/java/com/tobapuw/shelltext/data/SecurityAnalyzer.kt:695-715 | with rules visited from the most to the least severe, a line's findings are too |
| KotlinProperties.AllLineFindings | app/src/main/java/com/tobapuw/shelltext/data/SecurityAnalyzer.kt:692-719 | every per-line finding names a line of the file and carries its text, and the findings are in line order |
| KotlinProperties.AnalyzeShape | app/src/main/java/com/tobapuw/shelltext/data/SecurityAnalyzer.kt:628-726 | the result keeps name and content and sets no error; it is encrypted exactly when the content has a marker, and then it has no findings; the findings are in line order, heuristics first, the rest on their lines |
| KotlinProperties.ExplanationFromDeclarations | app/src/main/java/com/tobapuw/shelltext/data/SecurityAnalyzer.kt:703-708 | the explanation is the last value declared for the first declared key that occurs in the pattern, or the severity's default when none does |
| KotlinProperties.KotlinLineFindingsRankSorted | app/src/main/java/com/tobapuw/shelltext/data/SecurityAnalyzer.kt:29-358 | with the app's table, the findings of every line go from HIGH to MEDIUM to LOW |
| JsHeuristics.MatchAt | safety-check-improvement.js:335 | the end of the identifier match (a word boundary, a letter, `_` or `$`, then letters, digits, `_` or `$` up to a word boundary) that starts at a position, if one does; JsHeuristics.NextMatch and JsHeuristics.IdentifiersAreIdentifiers state what it yields |
| JsHeuristics.Identifiers | safety-check-improvement.js:335-340 | the texts the `exec` loop collects, one per successive match; JsHeuristics.IdentifiersAreIdentifiers states that each is an identifier of the content, and JsHeuristics.HasRenamedVariables that the loop collects exactly these |
| JsHeuristics.RenamedOutcome | safety-check-improvement.js:334-344 | `false` for fewer than ten names or an average of 2.5 or more, otherwise the `ReferenceError` of the undeclared `shortVars`; JsHeuristics.RenamedNeverReports states both outcomes |
| JsHeuristics.RunEnd | safety-check-improvement.js:335 | the end of the run of identifier characters from a position |
| JsHeuristics.NextMatch | safety-check-improvement.js:335-339 | `exec` returns the leftmost match at or after `lastIndex`, or none when there is none |
| JsHeuristics.IdentifiersAreIdentifiers | safety-check-improvement.js:335-340 | every collected name is an identifier that occurs in the content |
| JsHeuristics.RenamedNeverReports | safety-check-improvement.js:334-344 | the check never returns `true`; it throws exactly when there are at least ten names averaging under 2.5 characters |
| JsHeuristics.ShortNamesThrow | safety-check-improvement.js:341-343 | ten or more one-letter names separated by spaces make the check throw |
| JsHeuristics.HasRenamedVariables | safety-check-improvement.js:334-344 | the `exec` loop and its tests complete exactly as specified, including the throw |
| JsHeuristics.LineOf | safety-check-improvement.js:395-396 | the 1-based line of an escape's first occurrence; JsHeuristics.EscapeLinesInRange states that it is a line of the content |
| JsHeuristics.EscapeLines | safety-check-improvement.js:394-398 | the set of those lines over all escapes found; JsHeuristics.EscapeLinesInRange and JsHeuristics.EscapeLinesAtMostTexts bound it |
| JsHeuristics.ExcessiveEscapes | safety-check-improvement.js:385-401 | more than 20 escapes, on more than five distinct lines; JsHeuristics.ExcessiveEscapesStricter compares it with the app's check |
| JsHeuristics.IndexOf | safety-check-improvement.js:395 | `indexOf` is -1 exactly when the text does not occur, and otherwise is its first position |
| JsHeuristics.HasExcessiveEscapes | safety-check-improvement.js:385-401 | the imperative check returns the specified decision: more than 20 escapes, on more than five distinct lines |
| JsHeuristics.EscapeLinesInRange | safety-check-improvement.js:394-398 | every line number the loop records is a line of the content |
| JsHeuristics.ExcessiveEscapesStricter | safety-check-improvement.js:385-401 | the script's check implies the app's, and never holds for five lines or fewer |
| JsHeuristics.EscapeLinesAtMostTexts | safety-check-improvement.js:394-398 | there are no more recorded lines than distinct escape texts, since a repeated escape is located at its first occurrence |
| JsHeuristics.Base58Token | safety-check-improvement.js:376-381 | a token of 20 or more Base58 characters that is not an identifier; JsHeuristics.Base58TokenStartsWithDigit states what that leaves |
| JsHeuristics.Base58TokenStartsWithDigit | safety-check-improvement.js:373-383 | a reported token is 20 or more Base58 characters starting with a digit, since any other such token passes the identifier skip |
| JsHeuristics.HasBase58Encoded | safety-check-improvement.js:373-383 | the check holds exactly when some whitespace-separated token is a reported token |
| Base64.IsPaddedBase64 | safety-check-improvement.js:346 | the token regex: whole groups of four alphabet characters, the last ending in `=` or `==`; Base64.BtoaPadding and Base64.PaddedDecodes state what it accepts |
| Base64.Atob | safety-check-improvement.js:358 | `atob`: strip the padding, refuse a length of 1 modulo 4 or a character outside the alphabet, and decode the rest; Base64.AtobBtoa states the round trip and Base64.PaddedDecodes that it never refuses a regex-accepted token |
| Base64.SuspiciousToken | safety-check-improvement.js:353-362 | a token that is 20 characters or more, not a common word, accepted by the regex, and decodes to a byte above 0x7F; Base64.SuspiciousTokenShape states it without the common-word filter |
| Base64.ValueChar | safety-check-improvement.js:346 | the alphabet character of a value has that value |
| Base64.StripPadding | safety-check-improvement.js:358 | dropping the padding keeps a prefix and removes at most two characters |
| Base64.DecodeChars | safety-check-improvement.js:358 | decoding gives three bytes per four characters and one fewer than the characters of a partial group |
| Base64.Btoa | safety-check-improvement.js:358 | an encoding has a length that is a multiple of four, and is empty only for no bytes |
| Base64.BtoaPadding | safety-check-improvement.js:346 | an encoding has the shape the token regex accepts |
| Base64.AtobBtoa | safety-check-improvement.js:346-359 | encoding gives a token the regex accepts, and `atob` returns the encoded bytes |
| Base64.PaddedDecodes | safety-check-improvement.js:356-362 | every token the regex accepts decodes, so the `catch` branch is never taken |
| Base64.LongWordsAreNotCommon | safety-check-improvement.js:350-354 | a token of 20 characters or more is never a common word |
| Base64.HasBase64Encoded | safety-check-improvement.js:345-366 | the check holds exactly when some token is suspicious |
| Base64.TestWord | safety-check-improvement.js:353-362 | the loop body reports a token exactly when it is suspicious |
| Base64.SuspiciousTokenShape | safety-check-improvement.js:353-362 | a token is suspicious exactly when it is 20 characters or more, accepted by the regex, and decodes to a byte above 0x7F |
| JsAnalyzer.StripLabel | safety-check-improvement.js:484 | the label `replace` computes: the pattern with its escaped stars and negative lookahead groups removed; JsProperties.StripEscapedStar, JsProperties.StripLookahead and JsProperties.StripLabelPlain state it |
| JsAnalyzer.Explanation | safety-check-improvement.js:487 | `COMMAND_EXPLANATIONS[label] || default`: the table's text for the label unless it is missing or empty; JsProperties.AnchoredGetsDefault applies it to the script's table |
| JsAnalyzer.MakeIssue | safety-check-improvement.js:482-488 | the finding of one rule: 1-based line number, stripped label, line text, severity and explanation; JsProperties.LineFindingsPlace states it |
| JsAnalyzer.LineIssues | safety-check-improvement.js:476-517 | nothing for a skipped line, else one finding per matching rule in evaluation order, repeats included; JsProperties.LineFindingsCount, LineFindingsComplete and RepeatedRuleReportedTwice state it |
| JsAnalyzer.Analyze | safety-check-improvement.js:402-527 | the outcome of `analyzeShellScript`: encrypted with no findings, the heuristics' exception, or the heuristic findings followed by every line's findings; JsProperties.AnalyzeShape and JsProperties.AnalyzeThrows state it, and JsAnalyzer.AnalyzeShellScriptWith proves the loops compute it |
| JsAnalyzer.LineEnd | safety-check-improvement.js:484 | the first line terminator at or after a position, which the regex `.` does not cross |
| JsAnalyzer.LastClose | safety-check-improvement.js:484 | the last `)` of a range, or none when the range has no `)` |
| JsAnalyzer.LookaheadEnd | safety-check-improvement.js:484 | a removed `(?!…)` group starts with `(?!`, ends with `)` and lies within the pattern |
| JsAnalyzer.StripFrom | safety-check-improvement.js:484 | removing `\*` and lookahead groups never lengthens the pattern |
| JsAnalyzer.HeuristicOutcome | safety-check-improvement.js:423-450 | the heuristics throw exactly when the renamed-variable check does; otherwise one MEDIUM line-0 finding per check that holds, compressed first and escapes last |
| JsAnalyzer.MatchIndices | safety-check-improvement.js:479-517 | the reporting rules are among the rules tested |
| JsAnalyzer.AnalyzeShellScriptWith | safety-check-improvement.js:402-527 | the imperative analysis completes as specified for any rule table and explanation table |
| JsAnalyzer.ScanLines | safety-check-improvement.js:474-519 | the loop over the lines appends the findings of every line, in order |
| JsAnalyzer.ScanLine | safety-check-improvement.js:476-518 | a blank or comment line adds nothing; any other adds its findings |
| JsAnalyzer.ScanTiers | safety-check-improvement.js:479-517 | the three `forEach` loops append one finding per matching rule, in evaluation order |
| JsAnalyzer.ScanTier | safety-check-improvement.js:479-489 | one `forEach` keeps the findings equal to those of the rules tested so far |
| JsAnalyzer.AnalyzeShellScript | safety-check-improvement.js:402-527 | with the script's own tables, the analysis completes as specified |
| JsProperties.StripKeeps | safety-check-improvement.js:484 | a stretch with no `\*` and no `(?!` is kept as it is |
| JsProperties.StripLabelPlain | safety-check-improvement.js:484 | a pattern with neither is its own label |
| JsProperties.StripLookahead | safety-check-improvement.js:484 | for any pattern `pre(?!inner)post` whose outer parts hold no escaped star and no lookahead, whose inner part stays on one line and whose tail holds no `)`, the label is exactly `pre + post` |
| JsProperties.StripEscapedStar | safety-check-improvement.js:484 | for any pattern `pre\*post` whose two parts hold no escaped star and no lookahead, the label is exactly `pre + post` |
| JsProperties.RmRfLabel | safety-check-improvement.js:4 | the high-tier `rm -rf` pattern that spares `/data/adb/*` is labelled with its anchor followed by `rm -rf\b`: the escaped star inside the lookahead goes with the group |
| JsProperties.StripLabelKeepsAnchor | safety-check-improvement.js:1-229 | the label of an anchored pattern keeps the anchor |
| JsProperties.AnchoredGetsDefault | safety-check-improvement.js:232-234 | an anchored pattern's label is not a key of the table, so it gets the default explanation |
| JsProperties.MatchIndicesMembers | safety-check-improvement.js:479-517 | a rule reports on a line exactly when its pattern matches there |
| JsProperties.MatchIndicesIncreasing | safety-check-improvement.js:479-517 | the reporting rules come in evaluation order |
| JsProperties.MatchCount | safety-check-improvement.js:479-517 | as many findings as matching rules |
| JsProperties.LineFindingsPlace | safety-check-improvement.js:482-487 | every finding carries its 1-based line number and its text |
| JsProperties.LineFindingsMatch | safety-check-improvement.js:476-517 | a blank or comment line has no findings; every other finding reports a rule that matches |
| JsProperties.LineFindingsComplete | safety-check-improvement.js:479-517 | every matching rule is reported |
| JsProperties.LineFindingsCount | safety-check-improvement.js:479-517 | an examined line has exactly as many findings as matching rules |
| JsProperties.RepeatedRuleReportedTwice | safety-check-improvement.js:479-517 | a rule listed twice that matches gives two equal findings |
| JsProperties.LineFindingsRankSorted | safety-check-improvement.js:479-517 | with tiers in severity order, a line's findings go from the most to the least severe |
| JsProperties.RuleAnchored | safety-check-improvement.js:1-229 | every rule of anchored tiers has an anchored pattern |
| JsProperties.AnchoredFinding | safety-check-improvement.js:484-487 | a finding for an anchored pattern has an anchored label and the default explanation |
| JsProperties.LineFindingsExplainedByDefault | safety-check-improvement.js:479-517 | with anchored tiers, every finding of a line has an anchored label and the default explanation |
| JsProperties.ScriptTiersAnchored | safety-check-improvement.js:1-229 | every pattern of the script's table starts with the anchor |
| JsProperties.ScriptFindingsExplainedByDefault | safety-check-improvement.js:232-234 | with the script's tables, no finding gets a table explanation |
| JsProperties.AllLineFindings | safety-check-improvement.js:474-519 | the per-line findings name lines of the file, carry their text and come in line order |
| JsProperties.AnalyzeThrows | safety-check-improvement.js:402-450 | the analysis throws exactly when there is no encryption marker and the renamed-variable check throws, and then with a `ReferenceError` |
| JsProperties.ShortNamesMakeAnalysisThrow | safety-check-improvement.js:334-344 | a script of ten or more one-letter words without a marker makes the analysis throw |
| JsProperties.AnalyzeShape | safety-check-improvement.js:402-527 | a returned result keeps name and content; it is encrypted exactly when the content has a marker, and then it has no findings; the findings are in line order, heuristics first, the rest on their lines |
| JsProperties.EncryptedAgreesWithApp | safety-check-improvement.js:407-421 | on an encrypted script the script returns what the app returns |
| Collections.Count | app/src/main/java/com/tobapuw/shelltext/ui/screens/HomeScreen.kt:375-377 | `count` counts no more than the list holds |
| Collections.FilterSelects | app/src/main/java/com/tobapuw/shelltext/ui/screens/HomeScreen.kt:532-533 | `filter` keeps exactly the elements that satisfy the predicate, in their order |
| Collections.FilterCount | app/src/main/java/com/tobapuw/shelltext/ui/screens/HomeScreen.kt:532-533 | `filter` keeps as many elements as `count` counts, all satisfying the predicate |
| Collections.FilterFilter | app/src/main/java/com/tobapuw/shelltext/ui/screens/HomeScreen.kt:604-606 | filtering a filtered list filters by the conjunction |
| Collections.CountComplementary | app/src/main/java/com/tobapuw/shelltext/ui/screens/HomeScreen.kt:375-415 | two predicates that disagree on every element split the count |
| Collections.SumOfAdd | app/src/main/java/com/tobapuw/shelltext/data/ExportUtils.kt:40-52 | `sumOf` a pointwise sum is the sum of the `sumOf`s |
| HomeScreen.IsSafeCommand | app/src/main/java/com/tobapuw/shelltext/ui/screens/HomeScreen.kt:1076-1093 | `isSafeCommand`: a LOW finding whose command contains a safe name and no dangerous fragment; HomeScreen.SafeCommandMeaning and HomeScreen.DangerousTextIsNeverSafe state it |
| HomeScreen.RiskFiles | app/src/main/java/com/tobapuw/shelltext/ui/screens/HomeScreen.kt:375-377 | the files with a finding that is not safe; HomeScreen.FileCountsPartition relates it to the safe files |
| HomeScreen.SafeFiles | app/src/main/java/com/tobapuw/shelltext/ui/screens/HomeScreen.kt:413-415 | the files whose findings are all safe, or that have none; HomeScreen.FileCountsPartition relates it to the risk files |
| HomeScreen.SafeIssues | app/src/main/java/com/tobapuw/shelltext/ui/screens/HomeScreen.kt:532 | a card's safe findings; HomeScreen.CardPartition states that it and the risky list split the findings |
| HomeScreen.RiskIssues | app/src/main/java/com/tobapuw/shelltext/ui/screens/HomeScreen.kt:533 | a card's risky findings; HomeScreen.CardPartition states that it and the safe list split the findings |
| HomeScreen.OfSeverity | app/src/main/java/com/tobapuw/shelltext/ui/screens/HomeScreen.kt:604-606 | the findings of one severity; HomeScreen.SeverityCountsAddUp states that the three lists hold them all |
| HomeScreen.RiskText | app/src/main/java/com/tobapuw/shelltext/ui/screens/HomeScreen.kt:601-612 | the summary line with the count of each severity that is present; HomeScreen.RiskTextEmpty states when it is empty |
| HomeScreen.SafeCommandMeaning | app/src/main/java/com/tobapuw/shelltext/ui/screens/HomeScreen.kt:1076-1093 | a finding is safe exactly when it is LOW, its command contains a safe name, and it contains none of `rm`, `dd`, `mkfs`, `>`, `<`, `tee` |
| HomeScreen.DangerousTextIsNeverSafe | app/src/main/java/com/tobapuw/shelltext/ui/screens/HomeScreen.kt:1086-1091 | a command containing a dangerous fragment is never safe |
| HomeScreen.FileCountsPartition | app/src/main/java/com/tobapuw/shelltext/ui/screens/HomeScreen.kt:375-415 | every file is a risk file or a safe file, never both, so the two counts add up to the number of files |
| HomeScreen.CardPartition | app/src/main/java/com/tobapuw/shelltext/ui/screens/HomeScreen.kt:532-533 | a card's safe and risky lists hold only their kind and together all its findings |
| HomeScreen.SeverityCountsAddUp | app/src/main/java/com/tobapuw/shelltext/ui/screens/HomeScreen.kt:604-606 | the three severity lists together hold all the findings |
| HomeScreen.RiskKeepsHighAndMedium | app/src/main/java/com/tobapuw/shelltext/ui/screens/HomeScreen.kt:604-605 | every HIGH and MEDIUM finding is risky |
| HomeScreen.DialogGroupsPartition | app/src/main/java/com/tobapuw/shelltext/ui/screens/HomeScreen.kt:769-772 | the dialog's groups equal the card's per-severity risky lists, and with the safe list they hold every finding |
| HomeScreen.RiskTextEmpty | app/src/main/java/com/tobapuw/shelltext/ui/screens/HomeScreen.kt:601-611 | the summary line is empty exactly when there are no risky findings |
| ExportUtils.Statistics | app/src/main/java/com/tobapuw/shelltext/data/ExportUtils.kt:38-52 | the report's figures: files, findings, safe and risk files, and the three severity counts; ExportUtils.StatisticsConsistent, ExportUtils.FailedFileCountsAsSafe and ExportUtils.ScreenRiskWithinReport state their relations |
| ExportUtils.FileStatus | app/src/main/java/com/tobapuw/shelltext/data/ExportUtils.kt:278-280 | a file section's CSS class and status text; ExportUtils.FileStatusMeaning states both |
| ExportUtils.SeverityStyle | app/src/main/java/com/tobapuw/shelltext/data/ExportUtils.kt:302-318 | a finding's level class, level text and badge class; ExportUtils.SeverityStyleInjective states that they tell the severities apart |
| ExportUtils.SeveritySplit | app/src/main/java/com/tobapuw/shelltext/data/ExportUtils.kt:44-52 | the per-severity counts of a result add up to its findings |
| ExportUtils.StatisticsConsistent | app/src/main/java/com/tobapuw/shelltext/data/ExportUtils.kt:38-52 | safe files plus risk files is all files; the three severity counts add up to all findings; there is no risk file exactly when there is no finding |
| ExportUtils.FailedFileCountsAsSafe | app/src/main/java/com/tobapuw/shelltext/data/ExportUtils.kt:38-52 | adding a file that could not be read, anywhere in the list, adds one safe file on the results screen and in the report, and no finding or risk file to either |
| ExportUtils.ShortCircuitedCountAsSafe | app/src/main/java/com/tobapuw/shelltext/data/ExportUtils.kt:41 | encrypted and unreadable files count as safe |
| ExportUtils.ScreenRiskWithinReport | app/src/main/java/com/tobapuw/shelltext/data/ExportUtils.kt:42 | the screen never shows more risk files than the report |
| ExportUtils.FileStatusMeaning | app/src/main/java/com/tobapuw/shelltext/data/ExportUtils.kt:278-280 | a section is `status-safe` and reads `安全` exactly when there are no findings; otherwise it reads the number of findings in digits followed by ` 个风险项` |
| ExportUtils.SeverityStyleInjective | app/src/main/java/com/tobapuw/shelltext/data/ExportUtils.kt:302-318 | different severities get different level classes, level texts and badge classes |

## Left out

- The regular-expression engine is a parameter, so Java's and JavaScript's
  regex semantics are not modelled. Exceptions are the small regexes written
  out above: escapes, identifiers, Base64 tokens, the Base58 alphabet and
  the label stripping.
- File I/O is not modelled: the file picker, reading URIs, ZIP extraction
  in `scanFiles`/`processZipFile`, and writing and sharing the report in
  `exportReport`. `Issues.ErrorResult` models only the record built when a
  read fails.
- The Compose UI and the HTML template text around the figures are not
  modelled: colours, icons, layout and CSS.
- Strings are sequences of characters.
  - `trim()`, `\s` and `split(/\s+/)` use the six ASCII whitespace
    characters, not Unicode whitespace.
  - `toLowerCase` is ASCII.
  - UTF-16 surrogate pairs are not distinguished.
- Heuristics.IsCompressedCode: the floating-point average is stated as the
  exact integer comparison `sum > 150 * lines`. It agrees with the double
  computation for every text that fits in memory.
- JsHeuristics.RenamedOutcome: the script's `avgLength < 2.5`, a
  floating-point division, is stated as the exact integer comparison
  `2 * sum < 5 * count`. The two agree whenever there are fewer than 2^51
  identifiers and the lengths sum to less than 2^53, which holds for every
  script that fits in memory.
- JsHeuristics.RenamedOutcome: assumes that no other script on the page
  defines a global `shortVars`. The script itself reads page globals it does
  not declare (`modalTitle`, `modalContent`, `modal`,
  safety-check-improvement.js:531-608), so it runs beside other scripts, and
  the `ReferenceError` of `JsProperties.AnalyzeThrows` and
  `JsProperties.ShortNamesMakeAnalysisThrow` happens only when no such
  global exists.
- Text.Words: `split(/\s+/)` is modelled as a split at every whitespace
  character. This adds empty tokens, which every caller skips for being
  shorter than 20 characters.
- KotlinAnalyzer.ExtractMatchedCommand: the `"未知命令"` fallback and the
  `catch` branch are not modelled. Neither can be reached:
  - `split` always yields a first piece;
  - `group(0)` after a successful `find` does not throw.
- Base64.Atob: the whitespace removal and the exception of `atob` are not
  modelled. Tokens come from a whitespace split, and only tokens the regex
  accepts reach `atob` (`Base64.PaddedDecodes`).
- The script's severities are the strings `'high'`, `'medium'` and `'low'`.
  They are modelled as the `Severity` datatype.
- JavaScript property lookup on `COMMAND_EXPLANATIONS` is modelled as a map
  lookup. Inherited `Object.prototype` properties such as `constructor` are
  not modelled; no label equals one.
- The script's `SAFETY_COMMENTS`, its top-level `isCommonWord` and the modal
  dialog `showFileDetails` are display helpers and are not modelled.
- The script's `hasBase64Encoded` and `hasBase58Encoded` are modelled, but
  their calls are commented out, so the script's analysis does not use them.
- Concurrency (`withContext(Dispatchers.IO)`) is not modelled.
