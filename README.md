# Grading core, modelled in Dafny

A model of the core of an LLM-assisted grading tool. A teacher's rubric
arrives as free text. The rubric parser turns it into criteria with point
maxima, and the validator lists what is wrong with it. The engine then asks
a language model several times for a grade. Each reply goes through the
response parser, which pulls a JSON object out of the text and reconciles it
with the rubric. The engine keeps the passes that parse, picks the pass
whose total lies closest to the median, flags a spread above a threshold,
and builds an audit record from hashes of three canonical texts. A small
factory picks a document extractor by file extension.

The project has one module per source file, plus helpers:

- `Wrappers`: `Option` and `Result`. `Err` stands for the exception the source raises.
- `Text`: the parts of Python's `str` the core relies on.
- `Models`: `src/models.py`. The value types and the constraints their constructors enforce.
- `RubricParser`: `src/rubric/parser.py`.
- `RubricFormats`: the numbered, dash and colon line shapes of `src/rubric/parser.py`, each proved to read back as the criterion it spells out.
- `RubricValidator`: `src/rubric/validator.py`.
- `Scorer`: `src/grading/scorer.py`. JSON extraction and reconciliation.
- `Prompts`: `src/grading/prompt_builder.py`.
- `Stats`: Python's `sorted`, `min`, `max` and `statistics.median` on pass totals.
- `Engine`: `src/grading/engine.py`. `GradingEngine` and the oracle it calls are classes.
  The engine's passes loop is a method proved against a specification function.
- `Extractors`: `src/extractors/factory.py` and the extension lists of the extractor classes.

Pure code is modelled as functions with lemmas. Loops that update variables
are methods with invariants, each proved equal to a specification function
whose properties are proved separately. Decimal amounts are exact `real`s; the
response parser's decimals may also be infinite or NaN, as Python's `Decimal` allows.
Number formatting, `str()` of JSON values, `json.loads` and SHA-256 are
parameters: `fmt`, `show`, `decode` and `hash`.

## Model

| member | source | states |
|---|---|---|
| Text.StripLeft | src/rubric/parser.py:112 | the left-stripped text is no longer than the input and does not start with whitespace |
| Text.StripLeftDropsSpace | src/rubric/parser.py:112 | left-stripping keeps a suffix of the text and drops only whitespace |
| Text.StripRight | src/rubric/parser.py:112 | the right-stripped text is no longer than the input and does not end with whitespace |
| Text.StripRightDropsSpace | src/rubric/parser.py:112 | right-stripping keeps a prefix of the text and drops only whitespace |
| Text.Strip | src/models.py:388 | `str.strip()` leaves no whitespace at either end, never lengthens the text, and maps the empty text to itself |
| Text.StripEmptyIffAllSpace | src/rubric/parser.py:79 | a text strips to nothing exactly when it is all whitespace |
| Text.StripOfStripped | src/rubric/parser.py:82 | stripping an already stripped text changes nothing |
| Text.StripLeftOver | src/rubric/parser.py:112 | left-stripping whitespace followed by a text that does not start with whitespace leaves exactly that text |
| Text.StripRightOver | src/rubric/parser.py:112 | right-stripping a text that does not end with whitespace, followed by whitespace, leaves exactly that text |
| Text.StripPadded | src/rubric/parser.py:112 | stripping a non-empty stripped text padded with whitespace on both sides gives that text back |
| Text.Lower | src/grading/scorer.py:172 | `str.lower()` keeps the length and lower-cases each character on its own |
| Text.IndexOf | src/grading/scorer.py:82 | `str.find` returns a position at or after the start where the pattern occurs, with no earlier occurrence, or nothing when the pattern never occurs from there |
| Text.ContainsAt | src/grading/scorer.py:195 | an occurrence at any position makes `in` hold |
| Text.ContainsIffFound | src/grading/scorer.py:195 | `pat in s` holds exactly when `s.find(pat)` finds it |
| Text.ContainsFound | src/grading/scorer.py:195 | a text that contains a pattern lets `find` find it |
| Text.ContainsMiddle | src/grading/prompt_builder.py:133 | a piece embedded between two texts is contained in the result |
| Text.ContainsInLeft | src/grading/prompt_builder.py:133 | appending text keeps what the left part contains |
| Text.ContainsInRight | src/grading/prompt_builder.py:133 | prepending text keeps what the right part contains |
| Text.StartsWithAppend | src/rubric/parser.py:115 | a text starts with the piece it is built from first |
| Text.StartsWithExtend | src/rubric/parser.py:115 | appending text keeps a prefix a prefix |
| Text.EndsWithAppend | src/extractors/factory.py:53 | a text ends with the piece it is built from last |
| Text.StartsWithContains | src/rubric/parser.py:115 | a text contains the piece it starts with |
| Text.CharIndex | src/rubric/parser.py:182 | the result is the first index at or after the start that holds the character, or the length when there is none |
| Text.Split | src/rubric/parser.py:82 | `split` on one character gives at least one part and no part holds the separator |
| Text.JoinHas | src/grading/prompt_builder.py:133 | every part appears in the joined text |
| Text.ContainsTrans | src/grading/prompt_builder.py:133 | containment is transitive |
| Text.SliceOfSlice | src/rubric/parser.py:182 | a slice of a slice is the matching slice of the whole text |
| Text.SliceOfAppend | src/rubric/parser.py:36-63 | a slice lying inside one part of a concatenation is the matching slice of that part |
| Text.StartsWithPrepend | src/rubric/parser.py:115 | a common first piece keeps a prefix a prefix |
| Text.JoinThree | src/rubric/validator.py:19 | joining three parts puts the separator between neighbours and nowhere else |
| Text.JoinPrefix | src/grading/prompt_builder.py:133 | joining the first parts gives a prefix of joining them all |
| Text.JoinSlice | src/grading/prompt_builder.py:133 | joining a run of consecutive parts gives a piece of joining them all |
| Text.JoinSplit | src/rubric/parser.py:82 | splitting on a character and joining back with it gives the text back |
| Text.ReplaceAll | src/rubric/parser.py:196 | replacing with the empty text never lengthens the text, and a text without the pattern comes back unchanged |
| Text.DigitChar | src/grading/prompt_builder.py:129 | the digit character for a value below ten is a digit denoting that value |
| Text.NatText | src/grading/prompt_builder.py:129 | `str(n)` of a natural number is never empty |
| Text.NatTextDigits | src/grading/prompt_builder.py:129 | `str(n)` is all digits, denotes `n`, and starts with `0` only for zero |
| Text.Pow10 | src/rubric/parser.py:213 | a power of ten is at least one |
| Text.DigitRun | src/rubric/parser.py:190 | the run of digits ends inside the text, at a non-digit or at the end |
| Text.DigitRunDigits | src/rubric/parser.py:190 | the run of digits holds only digits |
| Text.SpaceRun | src/rubric/parser.py:190 | the run of whitespace ends inside the text, at a non-space or at the end |
| Text.SpaceRunSpaces | src/rubric/parser.py:190 | the run of whitespace holds only whitespace |
| Text.DigitRunOver | src/rubric/parser.py:190 | a maximal run of digits is the one `DigitRun` measures |
| Text.SpaceRunOver | src/rubric/parser.py:190 | a maximal run of whitespace is the one `SpaceRun` measures |
| Text.CharIndexAt | src/rubric/parser.py:182 | the first occurrence of a character found by hand is the one `CharIndex` returns |
| Text.TokenValue | src/rubric/parser.py:213 | `Decimal` of a number token is never negative, and a token without `.` is worth its digits read in base ten |
| Text.TokenPositional | src/rubric/parser.py:213 | a token `whole.fraction` is worth its whole digits plus its fraction digits over ten to the number of fraction digits |
| Text.TokenOfParts | src/rubric/parser.py:213 | a token `whole.fraction` is worth its digits without the `.` over ten to the number of fraction digits |
| Text.TokenValueAt | src/rubric/parser.py:213 | a token whose first `.` stands at a given position is worth its digits without the `.` over ten to the number of digits after it |
| Text.Unscale | src/rubric/parser.py:213 | dividing `x * p + y` by `p` gives `x + y / p`, the step from a scaled coefficient to a positional value |
| Text.DigitsValueAppend | src/rubric/parser.py:213 | appending digits multiplies the value of the first ones by ten per appended digit and adds the value of the appended ones |
| Text.TenAndAHalf | src/rubric/parser.py:213 | the token `10.5` is a number token worth exactly 10.5 |
| Text.NatTokenValue | src/rubric/parser.py:213 | `str(n)` and `str(n) + ".0"` are number tokens worth exactly `n` |
| Text.PointZero | src/rubric/parser.py:213 | digits followed by `.0` form a number token worth the digits |
| Text.NumberEnd | src/rubric/parser.py:190 | the greedy match of `\d+(?:\.\d+)?` is non-empty exactly when a digit stands at the start |
| Text.NumberEndToken | src/rubric/parser.py:190 | the greedy match is a number token, followed by no digit, and by no `.` followed by a digit |
| Text.NoDotInDigits | src/rubric/parser.py:190 | a run of digits holds no `.` |
| Text.DecimalToken | src/rubric/parser.py:190 | digits, a `.` and digits form a number token whose `.` follows the first digits |
| Text.WholeToken | src/rubric/parser.py:190 | a maximal run of digits is a number token with no `.` |
| Text.FractionToken | src/rubric/parser.py:190 | digits, a `.` and a further run of digits form the greedy match of the decimal pattern |
| Text.NumberEndOver | src/rubric/parser.py:190 | a number token followed by neither a digit nor a `.` is exactly what the greedy match takes |
| Text.UnitEnd | src/rubric/parser.py:190 | the optional unit `(?:points?\|pts?\|marks?)` ends inside the text, at or after its start |
| Text.UnitEndWord | src/rubric/parser.py:39 | with `IGNORECASE`, a unit word in any case (`points`, `PTS`, `Mark`, ...) that is not followed by an `s` is taken whole by `(?:points?\|pts?\|marks?)` |
| Text.UnitEndPoint | src/rubric/parser.py:39 | `point` or `points` in any case, not followed by a further `s`, is taken whole |
| Text.UnitEndPt | src/rubric/parser.py:39 | `pt` or `pts` in any case, not followed by a further `s`, is taken whole |
| Text.UnitEndMark | src/rubric/parser.py:39 | `mark` or `marks` in any case, not followed by a further `s`, is taken whole |
| Text.LexLessIrreflexive | src/extractors/factory.py:36 | Python's string order is irreflexive |
| Text.LexLessTransitive | src/extractors/factory.py:36 | Python's string order is transitive |
| Text.LexLessTotal | src/extractors/factory.py:36 | any two different strings are ordered one way or the other |
| Models.MakeCriterion | src/models.py:33-66 | a criterion is accepted exactly when its name has 1 to 200 characters, its description is non-empty and its maximum lies in (0, 1000]; a refusal names each violated constraint and only those |
| Models.RepeatedNames | src/models.py:119-126 | the set of repeated names is empty exactly when the criterion names are distinct |
| Models.MakeRubric | src/models.py:77-126 | a rubric is accepted exactly when its title has 1 to 500 characters, it has at least one criterion and no name repeats; a refusal names each violated constraint, and a duplicate-name refusal carries the repeated names |
| Models.SumMaxPointsBounds | src/models.py:107-111 | the total of valid maxima lies between 0 and 1000 per criterion, and is positive for a non-empty list |
| Models.SumMaxPointsAppend | src/models.py:107-111 | the total of maxima is additive over concatenation |
| Models.RubricTotals | src/models.py:107-117 | a valid rubric has at least one criterion and a positive total maximum of at most 1000 per criterion |
| Models.MakeCriterionResult | src/models.py:134-186 | a criterion result is accepted exactly when its award lies in [0, max] and its justification is non-empty; each refusal reason holds exactly when its field check fails, and the award-above-max check runs only after the field checks pass |
| Models.RatioPercentBounds | src/models.py:188-194 | a part of a positive whole, as a percentage, lies in [0, 100] |
| Models.PercentageBounds | src/models.py:188-194 | a valid result's percentage lies in [0, 100] and, for a positive maximum, equals award / max * 100; a zero maximum gives 0, and exactly a full positive award gives 100 |
| Models.MakeGradingResult | src/models.py:197-248 | a grading result is accepted exactly when it has at least one criterion result, non-empty feedback and at least one pass; a refusal names each violated constraint and only those |
| Models.SumsBounded | src/models.py:249-259 | the total awarded over valid results lies between 0 and the total maximum |
| Models.GradingTotals | src/models.py:249-267 | a grading result's total award lies in [0, total max] and its percentage score in [0, 100], with 0 when the total maximum is 0 |
| RubricParser.ErrorText | src/rubric/parser.py:15-22 | an error raised for a numbered line reads `Line <n>: ` followed by the message |
| RubricParser.DropColonSpace | src/rubric/parser.py:40 | dropping the run of `[:\s]*` never lengthens the text and leaves neither a `:` nor whitespace in front |
| RubricParser.SeparatorRun | src/rubric/parser.py:60 | the run of `[,;:\s]` from a position ends inside the line, at a character outside the class or at the end |
| RubricParser.MatchNumbered | src/rubric/parser.py:36-43 | a match of the numbered pattern gives name, points and description spans that lie inside the line |
| RubricParser.DashTail | src/rubric/parser.py:48-51 | once the name ends at a dash, a match of the rest of the dash pattern gives spans inside the line |
| RubricParser.DashFrom | src/rubric/parser.py:47-48 | the lazy name search gives spans inside the line |
| RubricParser.MatchDash | src/rubric/parser.py:45-53 | a match of the dash pattern gives spans inside the line |
| RubricParser.MatchColonHead | src/rubric/parser.py:55-59 | a match of the colon pattern up to the unit gives spans inside the line |
| RubricParser.SeparatedRest | src/rubric/parser.py:60-61 | `[,;:\s]+(.+)$` after the unit takes at least one separator and leaves a non-empty description |
| RubricParser.MatchColon | src/rubric/parser.py:55-63 | a match of the colon pattern gives spans inside the line |
| RubricParser.Build | src/rubric/parser.py:131-174 | a matched line gives a valid criterion or a line error (non-positive points or a refused criterion), never "no match" |
| RubricParser.BuildMeaning | src/rubric/parser.py:131-174 | matched groups give exactly the points error of the line when the points are not positive; a criterion exactly when the points are at most 1000, the name has 1 to 200 characters and the description is non-empty, where a numbered line with no description gets "Evaluation of {name}"; that criterion carries the name, the description and the points; otherwise a validation error |
| RubricParser.TryNumbered | src/rubric/parser.py:131-144 | the numbered format gives no match exactly when the numbered pattern does not match, and otherwise a valid criterion or a line error |
| RubricParser.TryDash | src/rubric/parser.py:146-159 | the dash format gives no match exactly when the dash pattern does not match, and otherwise a valid criterion or a line error |
| RubricParser.TryColon | src/rubric/parser.py:161-174 | the colon format gives no match exactly when the colon pattern does not match, and otherwise a valid criterion or a line error |
| RubricParser.NonEmptyCells | src/rubric/parser.py:182-183 | the cells kept after dropping empty ones are all non-empty |
| RubricParser.SearchNumber | src/rubric/parser.py:190 | the search finds a non-empty match, and finds nothing exactly when the cell has no digit |
| RubricParser.FirstDigit | src/rubric/parser.py:190 | the search starts at the first digit at or after the given position |
| RubricParser.TableCriterion | src/rubric/parser.py:192-206 | a cell holding a number gives a valid criterion or a line error, never "no match" |
| RubricParser.TableFrom | src/rubric/parser.py:189-208 | the scan over the remaining cells gives no match, a valid criterion or a line error |
| RubricParser.TableFromSkips | src/rubric/parser.py:189-191 | cells holding no number are passed over by the scan |
| RubricParser.TableOutcome | src/rubric/parser.py:176-208 | a table row gives no match, a valid criterion or a line error |
| RubricParser.TryTableFormat | src/rubric/parser.py:176-208 | the loop over the cells returns what the specification of a table row gives |
| RubricParser.ParseLine | src/rubric/parser.py:110-124 | each stripped line gives no match, a valid criterion or a line error |
| RubricParser.LineOutcomes | src/rubric/parser.py:110 | lines are numbered from 1, and each outcome is that line's parse |
| RubricParser.Collect | src/rubric/parser.py:108-129 | the criteria collected from the first n lines are valid and at most n, or the parse stops with a line error |
| RubricParser.ParseLinesUpTo | src/rubric/parser.py:102-129 | parsing the first n lines gives at most n valid criteria or a line error |
| RubricParser.FailurePersists | src/rubric/parser.py:110-127 | once a line raises, later lines change nothing: the first error is the one raised |
| RubricParser.ParseOneLine | src/rubric/parser.py:111-124 | the method tries the formats in order (numbered, dash, colon, table) and returns the outcome the specification gives |
| RubricParser.CollectNext | src/rubric/parser.py:126-127 | one more line appends its criterion, raises its error, or leaves the list unchanged |
| RubricParser.ParseLines | src/rubric/parser.py:102-129 | the loop over all lines returns the specification's list of criteria or its first error, and every criterion returned is valid |
| RubricParser.DropHashes | src/rubric/parser.py:226 | `lstrip("#")` leaves no leading `#` |
| RubricParser.TitleSteps | src/rubric/parser.py:222-232 | each line is classified on its own as a heading, a plain title, a stop or a line to pass over |
| RubricParser.ScanSteps | src/rubric/parser.py:220-233 | a title found comes from a heading or a plain line at or after the start |
| RubricParser.TitleFromFirstCandidate | src/rubric/parser.py:220-233 | the title is decided by the first line that is not passed over: a heading gives its text, a short plain line itself, and any other line stops the search with no title |
| RubricParser.ExtractTitle | src/rubric/parser.py:220-233 | the loop returns the title the specification gives |
| RubricParser.ParseSpec | src/rubric/parser.py:65-100 | a parsed rubric is valid |
| RubricParser.Parse | src/rubric/parser.py:65-100 | the method returns what the specification gives; it raises "content is empty" exactly when the content is all whitespace; a rubric it returns is valid |
| RubricParser.CollectEmptyIffNoMatch | src/rubric/parser.py:108-129 | no criterion and no error come out exactly when no line matches any format |
| RubricParser.CollectKeepsOrder | src/rubric/parser.py:126-127 | when every line parses, the criteria are all of them, in line order |
| RubricParser.NoCriteriaIffNothingMatches | src/rubric/parser.py:79-92 | non-blank content raises "no valid criteria" exactly when no line matches any format |
| RubricParser.TableFromFirstNumber | src/rubric/parser.py:189-209 | the table row is read at its first cell holding a number, when the cells before it hold none |
| RubricFormats.ParsedAsNumbered | src/rubric/parser.py:119-120 | a line the numbered pattern matches is read by `_try_numbered_format`, with the default description |
| RubricFormats.ParsedAsDash | src/rubric/parser.py:119-121 | a line only the dash pattern matches is read by `_try_simple_format` |
| RubricFormats.ParsedAsColon | src/rubric/parser.py:119-122 | a line only the colon pattern matches is read by `_try_colon_format` |
| RubricFormats.NotSkipped | src/rubric/parser.py:113-116 | a non-empty line starting with none of `#`, `-` and `\|` is not passed over |
| RubricFormats.NumberedHeadPieces | src/rubric/parser.py:36-43 | the text `{num}. {name} (` holds the number, the dot, the padded name and the `(` at their positions |
| RubricFormats.NumberedRestPieces | src/rubric/parser.py:36-43 | the text `{token} {unit}): {description}` holds its pieces at their positions |
| RubricFormats.MatchNumberedAt | src/rubric/parser.py:36-43 | a line with digits, a dot, a `(` at the first `(`, a number token, one space and a unit word closed by `)` is matched with exactly those spans |
| RubricFormats.NumberedLayoutHead | src/rubric/parser.py:36-43 | a numbered line starts with the number, the dot, the padded name and the `(` |
| RubricFormats.NumberedLayoutRest | src/rubric/parser.py:36-43 | a numbered line continues with the token, a space, the unit, `)` and `: ` before the description |
| RubricFormats.NumberedHeadRuns | src/rubric/parser.py:36-43 | the digit run of a numbered line ends at its dot, and the first `(` after it is the one closing the name |
| RubricFormats.UnitRuns | src/rubric/parser.py:39 | one space and a unit word not followed by `s` are what the matcher takes |
| RubricFormats.ColonSpaceOver | src/rubric/parser.py:40-41 | `[:\s]*` drops exactly the `: ` in front of a description that does not start with `:` |
| RubricFormats.NumberedGroupsAt | src/rubric/parser.py:135-137 | the groups of a numbered match are the stripped name, the token and the stripped description after `[:\s]*` |
| RubricFormats.NumberedHead | src/rubric/parser.py:36-43 | a numbered line is matched up to its `(`, and its name group strips back to the name |
| RubricFormats.NumberedToken | src/rubric/parser.py:36-43 | the points token of a numbered line is matched whole |
| RubricFormats.NumberedDescription | src/rubric/parser.py:36-43 | a numbered line is stripped, its `)` stands after the unit, and its description group strips back to the description |
| RubricFormats.NumberedUnit | src/rubric/parser.py:36-43 | the unit of a numbered line is matched whole after one space |
| RubricFormats.NumberedTry | src/rubric/parser.py:36-43 | `{num}. {name} ({token} {unit}): {description}` gives back the groups name, token and description |
| RubricFormats.NumberedLineParses | src/rubric/parser.py:110-144 | a numbered line reads back: non-positive points give that line's points error, points up to 1000 with a name of at most 200 characters give the criterion with that name, description and exactly the token's value, and larger values give a validation error |
| RubricFormats.DashHeadPieces | src/rubric/parser.py:45-53 | the text `{name} {dash} ` holds the name, a space and the dash at their positions |
| RubricFormats.DashRestPieces | src/rubric/parser.py:45-53 | the text `{token} {unit} {dash} {description}` holds its pieces at their positions |
| RubricFormats.DashLayoutHead | src/rubric/parser.py:45-53 | a dash line starts with the name, a space, the first dash and a space |
| RubricFormats.DashLayoutRest | src/rubric/parser.py:45-53 | a dash line continues with the token, the unit, the second dash and the description |
| RubricFormats.DashFromSkips | src/rubric/parser.py:47 | the lazy name search passes over positions that hold no dash and do not follow a `-` |
| RubricFormats.DashTailAt | src/rubric/parser.py:48-51 | after a dash, one space, a number token, one space, a unit word, one space and a second dash are matched with exactly those spans |
| RubricFormats.DashHeadRuns | src/rubric/parser.py:47 | the lazy name search skips the whole name when it holds no dash |
| RubricFormats.DashHead | src/rubric/parser.py:45-53 | the name search of a dash line stops at its first dash, and the name group strips back to the name |
| RubricFormats.TokenRuns | src/rubric/parser.py:49 | a number token after one space and before a space is matched whole |
| RubricFormats.DashToken | src/rubric/parser.py:45-53 | the points token of a dash line is matched whole |
| RubricFormats.DashUnit | src/rubric/parser.py:45-53 | the unit of a dash line is matched whole, followed by one space and the second dash |
| RubricFormats.DashDescription | src/rubric/parser.py:45-53 | a dash line is stripped, and its description group strips back to the description |
| RubricFormats.NotNumbered | src/rubric/parser.py:36-43 | a line that does not start with a digit is not a numbered line |
| RubricFormats.DashGroupsAt | src/rubric/parser.py:150-152 | the groups of a dash match are the stripped name, the token and the stripped description |
| RubricFormats.DashTry | src/rubric/parser.py:45-53 | `{name} {dash} {token} {unit} {dash} {description}` is no numbered line and gives back the groups name, token and description |
| RubricFormats.DashLineParses | src/rubric/parser.py:110-159 | a dash line reads back: non-positive points give that line's points error, points up to 1000 with a name of at most 200 characters give the criterion with that name, description and exactly the token's value, and larger values give a validation error |
| RubricFormats.ColonHeadPieces | src/rubric/parser.py:55-63 | the text `{name}: ` holds the name, the colon and a space at their positions |
| RubricFormats.ColonRestPieces | src/rubric/parser.py:55-63 | the text `{token} {unit}{separators}{description}` holds its pieces at their positions |
| RubricFormats.ColonLayout | src/rubric/parser.py:55-63 | a colon line is laid out as name, `: `, token, space, unit, separators and description |
| RubricFormats.SeparatorRunAcross | src/rubric/parser.py:60 | the run of separators in a line covers exactly the separators written before a description that starts with none |
| RubricFormats.SeparatorsNoDash | src/rubric/parser.py:60 | separators hold no dash |
| RubricFormats.SeparatedAt | src/rubric/parser.py:60-61 | `[,;:\s]+(.+)$` takes exactly the separators written before the description |
| RubricFormats.MatchColonHeadAt | src/rubric/parser.py:55-59 | a line with a first colon, one space, a number token, one space and a unit word is matched with exactly those spans |
| RubricFormats.MatchColonAt | src/rubric/parser.py:55-63 | the colon match extends the head match by the separators taken |
| RubricFormats.ColonHeadRuns | src/rubric/parser.py:57 | the first colon of a line whose name holds none ends the name |
| RubricFormats.ColonRuns | src/rubric/parser.py:55-63 | a laid-out colon line has its first colon after the name, its token and unit matched whole, and the separators after the unit |
| RubricFormats.ColonPieces | src/rubric/parser.py:55-63 | a colon line is stripped, starts with its name, and ends with its description |
| RubricFormats.UnitWordNoDash | src/rubric/parser.py:59 | a unit word holds no dash |
| RubricFormats.TokenNoDash | src/rubric/parser.py:59 | a number token holds no dash |
| RubricFormats.NoDashAppend | src/rubric/parser.py:47 | joining two texts without a dash gives a text without one |
| RubricFormats.ColonNoDash | src/rubric/parser.py:55-63 | a colon line built from parts without dashes holds none |
| RubricFormats.NotDash | src/rubric/parser.py:45-53 | a line without any dash is not a dash line |
| RubricFormats.StrippedPieces | src/rubric/parser.py:165-167 | stripped parts standing at the start and the end of a line strip back to themselves |
| RubricFormats.ColonFacts | src/rubric/parser.py:55-63 | a colon line has every run the matcher measures at the position the layout gives |
| RubricFormats.ColonGroupsAt | src/rubric/parser.py:165-167 | the groups of a colon match are the stripped name, the token and the stripped description |
| RubricFormats.ColonFoundGroups | src/rubric/parser.py:55-63 | a line with those runs gives back the groups name, token and description |
| RubricFormats.ColonOnly | src/rubric/parser.py:119-121 | a colon line is stripped and is neither a numbered nor a dash line |
| RubricFormats.ColonTry | src/rubric/parser.py:55-63 | `{name}: {token} {unit}{separators}{description}` is no numbered and no dash line and gives back the groups name, token and description |
| RubricFormats.ColonLineParses | src/rubric/parser.py:110-174 | a colon line reads back: non-positive points give that line's points error, points up to 1000 with a name of at most 200 characters give the criterion with that name, description and exactly the token's value, and larger values give a validation error |
| RubricFormats.StyleLine | src/rubric/parser.py:45-53 | `Style – 5 PTS – Consistent tone` on line 4 gives the criterion "Style" worth 5 points with description "Consistent tone" |
| RubricParser.TableCriterionParts | src/rubric/parser.py:192-206 | a table criterion takes its points from the number cell; with the number in the first cell, the other cells joined by spaces are the description; otherwise the first cell is the name, the cells after the number are the description, and a trailing number gives "Evaluation of <name>" |
| RubricParser.SkippedLineGivesNothing | src/rubric/parser.py:111-116 | a line that is blank, a heading or a table separator once stripped yields no criterion |
| RubricValidator.PerCriterionIssues | src/rubric/validator.py:71-72 | there is one list of issues per criterion |
| RubricValidator.Keys | src/rubric/validator.py:148 | there is one duplicate-detection key per criterion |
| RubricValidator.KeysAt | src/rubric/validator.py:148 | each criterion's key is its name lower-cased, then stripped |
| RubricValidator.FirstWithKey | src/rubric/validator.py:145-155 | the result is the first position whose key is the given one, or the bound when there is none |
| RubricValidator.CheckDuplicates | src/rubric/validator.py:142-157 | the loop with its dictionary of seen names reports exactly the duplicates the specification lists |
| RubricValidator.ScanStep | src/rubric/validator.py:149-155 | a name already seen adds one report pointing at the position recorded for it; a new name is recorded and adds nothing |
| RubricValidator.SeenStep | src/rubric/validator.py:145-155 | the dictionary maps each key met so far to one plus its first position; a key is in it exactly when it occurred earlier |
| RubricValidator.ValidateCriteria | src/rubric/validator.py:71-72 | the loop collects the issues of every criterion, in order, numbered from 1 |
| RubricValidator.Validate | src/rubric/validator.py:55-80 | the issues are structure, per-criterion, duplicate and total issues in that order, and the rubric is valid exactly when there are none |
| RubricValidator.ValidateOrRaise | src/rubric/validator.py:82-94 | it raises exactly when there is an issue, and the error carries all the issues |
| RubricValidator.IssueText | src/rubric/validator.py:111-138 | every per-criterion message starts with `Criterion <i> (<name>): ` |
| RubricValidator.Prefixed | src/rubric/validator.py:111-138 | a prefixed message starts with its prefix |
| RubricValidator.CriterionIssuesEmptyIff | src/rubric/validator.py:108-140 | a criterion has no issue exactly when its stripped name has at least 2 characters, its stripped description at least 10, no vague word appears in its lower-cased description, and its maximum is at most 1000 |
| RubricValidator.FlattenSnoc | src/rubric/validator.py:71-72 | extending the issues with one more criterion's issues appends them at the end |
| RubricValidator.PerCriterionStep | src/rubric/validator.py:71-72 | one more loop step appends the next criterion's issues |
| RubricValidator.AllEmptySnoc | src/rubric/validator.py:71-72 | all lists are empty after one more exactly when they were before and the new one is |
| RubricValidator.FlattenEmptyIff | src/rubric/validator.py:71-72 | the collected issues are empty exactly when every criterion's list is |
| RubricValidator.PerCriterionEmptyIff | src/rubric/validator.py:71-72 | every criterion's list is empty exactly when every criterion is clean |
| RubricValidator.CriteriaIssuesEmptyIff | src/rubric/validator.py:71-72 | the per-criterion stage reports nothing exactly when every criterion is clean |
| RubricValidator.DuplicateIssuesEmptyIff | src/rubric/validator.py:142-157 | no duplicate is reported exactly when the keys are distinct |
| RubricValidator.DuplicateIssueReportsFirst | src/rubric/validator.py:149-153 | each report names a later criterion and the first earlier position with the same key |
| RubricValidator.ValidIff | src/rubric/validator.py:55-80 | a rubric is valid exactly when its title is not blank, it has criteria, each is clean, no two keys agree, and its total lies in (0, 1000] |
| RubricValidator.HighTotalInvalid | src/rubric/validator.py:166-171 | a total above 1000 makes the rubric invalid, although the comment calls it a warning |
| RubricValidator.CriterionIssuesAt | src/rubric/validator.py:108-140 | every issue of a criterion is a per-criterion issue about its position |
| RubricValidator.AboutConcat | src/rubric/validator.py:108-140 | issues about one position stay about it when joined |
| RubricValidator.CriterionNoPointsIssue | src/rubric/validator.py:134-138 | a criterion whose maximum is at most 1000 gets no points issue |
| RubricValidator.PerCriterionAbout | src/rubric/validator.py:71-72 | the k-th list of issues is about criterion k + 1 |
| RubricValidator.PerCriterionNoPoints | src/rubric/validator.py:134-138 | criteria whose maxima are at most 1000 get no points issue |
| RubricValidator.FlattenOrdered | src/rubric/validator.py:71-72 | the collected per-criterion issues come by criterion position |
| RubricValidator.FlattenNoPoints | src/rubric/validator.py:71-72 | lists without a points issue collect into one without |
| RubricValidator.DuplicateIssuesStage | src/rubric/validator.py:142-157 | every duplicate issue belongs to the duplicate stage |
| RubricValidator.StagesInOrder | src/rubric/validator.py:65-80 | four runs of issues, each of one stage, joined in stage order come stage by stage |
| RubricValidator.IssuesOrdered | src/rubric/validator.py:65-80 | the issues come stage by stage, and the per-criterion ones by criterion position |
| RubricValidator.StructureAndTotalStages | src/rubric/validator.py:96-106 | the structure issues come first and the total issues last |
| RubricValidator.PerCriterionOrdered | src/rubric/validator.py:71-72 | the per-criterion issues are all of that stage and come by position |
| RubricValidator.BuiltRubricIssues | src/rubric/validator.py:103-104 | a rubric that passed its own construction checks never gets the "no criteria", per-criterion points or non-positive total issue |
| RubricValidator.StageExcludes | src/rubric/validator.py:65-80 | issues all of one stage hold none of another stage |
| RubricValidator.BuiltCriteriaNoPoints | src/rubric/validator.py:134-138 | the criteria of a valid rubric get no points issue |
| RubricValidator.NoPointsConcat | src/rubric/validator.py:134-138 | joining issue lists without a points issue gives one without |
| RubricValidator.VagueFromWords | src/rubric/validator.py:41-53 | the words found from position i on are exactly the listed words from i that occur in the lower-cased text |
| RubricValidator.VagueIssue | src/rubric/validator.py:124-131 | the vague-word issue names exactly the listed words occurring in the lower-cased description, and is raised exactly when there is at least one |
| RubricValidator.VagueIssueOnce | src/rubric/validator.py:124-131 | a criterion gets at most one vague-description issue, however many listed words occur |
| Scorer.FencedBlock | src/grading/scorer.py:76 | a fenced block is found exactly when two occurrences of the fence at least three characters apart exist |
| Scorer.TagHoldsNoFence | src/grading/scorer.py:76 | the optional `json` tag holds no fence, so the lazy match cannot end inside it |
| Scorer.DepthStep | src/grading/scorer.py:87-94 | the depth after one more character is the previous balance plus that character's step |
| Scorer.FirstClose | src/grading/scorer.py:88-94 | the scan stops at the first position where the depth returns to zero, or finds none |
| Scorer.FirstCloseAt | src/grading/scorer.py:88-94 | a first return to depth zero found by hand is the one the scan stops at |
| Scorer.FirstCloseNone | src/grading/scorer.py:88-96 | when the depth never returns to zero, the scan finds nothing |
| Scorer.ExtractJson | src/grading/scorer.py:65-96 | the method with its depth-counting loop returns what the specification gives: the fenced block stripped, else the balanced object from the first `{`, else "no JSON object" or "unclosed object" |
| Scorer.BraceObjectShape | src/grading/scorer.py:80-94 | without a fence, the extracted text starts at the first `{`, ends with the `}` that balances it, and every shorter prefix leaves a brace open |
| Scorer.DepthsPositive | src/grading/scorer.py:87-94 | before the first return to zero, the depth stays positive |
| Scorer.ParseDecimal | src/grading/scorer.py:263-285 | a JSON number is taken as a finite decimal, the JSON `NaN` as a quiet NaN and `Infinity`/`-Infinity` as infinities; a string is accepted exactly when it reads as a decimal, which may itself be infinite or NaN; every failure is "invalid numeric value" for that field |
| Scorer.Put | src/grading/scorer.py:172 | assigning a dictionary key keeps keys unique, holds the new entry, drops only the old entry for that key and keeps every other entry |
| Scorer.TailKeys | src/grading/scorer.py:172 | the rest of a dictionary with unique keys has unique keys and none equal to the first key |
| Scorer.ConsUnique | src/grading/scorer.py:172 | an entry whose key is new in front of a unique-key dictionary keeps keys unique |
| Scorer.LookupTable | src/grading/scorer.py:172 | the lookup has unique keys, and each entry maps a lower-cased name to a rubric criterion with that name |
| Scorer.TableStep | src/grading/scorer.py:172 | the lookup is built by assigning each criterion under its lower-cased name in rubric order |
| Scorer.TableKeys | src/grading/scorer.py:172 | every rubric criterion's lower-cased name is a key of the lookup |
| Scorer.Get | src/grading/scorer.py:191 | `dict.get` returns the entry's criterion, and finds one exactly when the key is present |
| Scorer.PartialMatch | src/grading/scorer.py:193-197 | the partial match returns a criterion whose key contains the name or is contained in it, and finds none exactly when no key does |
| Scorer.Resolve | src/grading/scorer.py:191-197 | a resolved criterion comes from the lookup, and an exact key always resolves to its own entry |
| Scorer.FindPartialMatch | src/grading/scorer.py:194-197 | the loop with its early `break` returns the first partial match in insertion order |
| Scorer.Deduction | src/grading/scorer.py:237-241 | a deduction reason kept is present in the item and is never the text "null" |
| Scorer.CheckItem | src/grading/scorer.py:177-251 | a non-object item is refused; every refusal is a scoring error, except the `InvalidOperation` a NaN award raises when it is compared; an accepted item comes from the lookup, was not seen before, and gives a valid result carrying that criterion's name and maximum |
| Scorer.ScanItems | src/grading/scorer.py:177-251 | the loop over the items fails only with scoring errors |
| Scorer.MissingNames | src/grading/scorer.py:253-259 | no name is missing exactly when every key of the lookup was seen |
| Scorer.CriteriaResults | src/grading/scorer.py:151-261 | parsing the criteria results fails only with scoring errors |
| Scorer.ScanFailurePersists | src/grading/scorer.py:177-251 | once an item raises, later items change nothing |
| Scorer.ParseCriteriaResults | src/grading/scorer.py:151-261 | the method with its loop, lookup and seen set returns the specification's results or its error |
| Scorer.ScanSound | src/grading/scorer.py:177-251 | after any number of items, each result is backed by a distinct lookup criterion with its name and maximum, every result is valid, and the seen set is the set of their lower-cased names |
| Scorer.ExtendSound | src/grading/scorer.py:204-251 | accepting one more item keeps those facts |
| Scorer.BacksSnoc | src/grading/scorer.py:243-251 | appending a result with its criterion keeps every result backed |
| Scorer.FromTableSnoc | src/grading/scorer.py:191-197 | appending a criterion from the lookup keeps all criteria from the lookup |
| Scorer.ResultsValidSnoc | src/grading/scorer.py:243-251 | appending a valid result keeps every result valid |
| Scorer.UsedKeysSnoc | src/grading/scorer.py:210 | the seen set grows by the new criterion's lower-cased name |
| Scorer.DistinctSnoc | src/grading/scorer.py:204-210 | a criterion whose lower-cased name was not seen keeps the used criteria distinct |
| Scorer.CriteriaResultsSound | src/grading/scorer.py:151-261 | a successful parse matched each lower-cased rubric name exactly once, with valid results backed by rubric criteria |
| Scorer.Has | src/grading/scorer.py:118-120 | `field in data` is key membership on an object, is defined on lists and strings, and raises a type error on any other value |
| Scorer.FieldsCheck | src/grading/scorer.py:117-120 | the field loop fails only with a type error or a missing field |
| Scorer.FieldsPresent | src/grading/scorer.py:117-120 | when the field loop passes on an object, all four required fields are present |
| Scorer.FieldsPresentFrom | src/grading/scorer.py:117-120 | when the loop passes from a position on, every later required field is present |
| Scorer.ConvertedParts | src/grading/scorer.py:116-149 | a conversion that succeeds, or fails only in the result model, had the fields, parsed the criteria results, matched the rubric total, and built the result from the rubric title, those results and the feedback |
| Scorer.ValidateAndConvert | src/grading/scorer.py:98-149 | the method returns what the specification gives |
| Scorer.Parse | src/grading/scorer.py:36-63 | the method extracts, decodes and converts as the specification gives |
| Scorer.FencedRoundTrip | src/grading/scorer.py:76-78 | a stripped JSON text without backticks, wrapped in a `json` fence, is extracted unchanged |
| Scorer.FieldsCheckFirst | src/grading/scorer.py:117-120 | the first absent required field is the one reported |
| Scorer.MissingFieldIsFirst | src/grading/scorer.py:116-120 | conversion reports the first absent required field, before anything else is checked |
| Scorer.ScalarIsTypeFault | src/grading/scorer.py:118-119 | a JSON value that is no object, list or string raises a type error |
| Scorer.NoDupCount | src/grading/scorer.py:204-210 | in a list without repeats each element occurs at most once |
| Scorer.SameElementsPermute | src/grading/scorer.py:253-259 | two lists without repeats that hold the same elements are permutations of each other |
| Scorer.SumMaxPointsRemove | src/models.py:107-111 | the total of maxima is one element's maximum plus the total of the rest |
| Scorer.MultisetRemove | src/grading/scorer.py:253-259 | removing one element from a list removes one occurrence from its multiset |
| Scorer.SumMaxPointsPermutation | src/models.py:107-111 | permuting criteria keeps their total maximum |
| Scorer.BackedTotal | src/models.py:255-259 | the results' total maximum equals the total of the criteria that back them |
| Scorer.CaselessNoDup | src/grading/scorer.py:204-210 | criteria whose lower-cased names differ hold no repeat |
| Scorer.CriteriaCovered | src/grading/scorer.py:253-259 | when lower-cased names are distinct, a successful parse used each rubric criterion exactly once, gives one result per criterion, and its total maximum equals the rubric's |
| Scorer.SameCriteria | src/grading/scorer.py:253-259 | used criteria drawn from the rubric that cover every lower-cased rubric name are exactly the rubric's criteria |
| Scorer.ConvertedShape | src/grading/scorer.py:136-149 | a converted result is valid, carries the submission id and rubric title, uses one pass without variance or flag, and the reported max_possible equals the rubric total |
| Scorer.ConvertedMatchesRubric | src/grading/scorer.py:151-261 | every result of a conversion names a rubric criterion and carries its maximum, and every rubric name is matched up to case |
| Scorer.ResultsMatch | src/grading/scorer.py:243-259 | backed results over distinct used criteria that cover the rubric names match the rubric |
| Scorer.ConvertedCovers | src/grading/scorer.py:151-261 | when rubric names are distinct up to case, a converted result has exactly one result per rubric criterion, so its total maximum is the rubric's total |
| Scorer.PermutedCover | src/grading/scorer.py:243-259 | results backed by a permutation of the rubric cover it |
| Scorer.TotalScoreIgnored | src/grading/scorer.py:127-134 | the reported total_score only has to read as a decimal that is not NaN: which such decimal it is changes nothing |
| Scorer.NonFiniteTotals | src/grading/scorer.py:127-142 | after the criteria reconcile, a total_score that reads as NaN raises `InvalidOperation` in the comparison, as does a signalling-NaN max_possible, while a quiet-NaN or infinite max_possible is reported as a mismatch with the rubric total |
| Scorer.SameKeysSameCheck | src/grading/scorer.py:117-120 | the field loop looks only at which keys an object has |
| Scorer.FeedbackRejection | src/grading/scorer.py:145-149 | for a rubric with criteria, the result model can refuse a conversion only for an empty feedback, and that refusal is not a scoring error |
| Scorer.OnlyFeedbackFails | src/models.py:222-227 | with one pass and at least one valid result, the result model refuses exactly an empty feedback |
| Scorer.LaterVariantWins | src/grading/scorer.py:172 | the lookup keeps the last criterion for each lower-cased name: a criterion followed by a case variant of its name is in no entry |
| Scorer.TableKeepsAbsent | src/grading/scorer.py:172 | assigning a criterion with another name keeps a name absent from the lookup |
| Scorer.TableOverwrites | src/grading/scorer.py:172 | assigning a case variant overwrites the entry of the name it varies |
| Scorer.CaseVariantNamesDropCriterion | src/grading/scorer.py:172-259 | for a rubric whose criterion is followed by a case variant of its name, any accepted response has no result for that criterion and does not cover the rubric |
| Scorer.CaseVariantRubricAccepted | src/models.py:119-126 | a rubric with the criteria "Content" and "content" passes the rubric model's exact-name duplicate check |
| Scorer.ItemChecks | src/grading/scorer.py:183-250 | an item without a criterion name, with an unknown name, or naming a criterion already scored is refused with that error; an accepted item records the award read, the justification and the deduction reason |
| Scorer.ItemPoints | src/grading/scorer.py:214-236 | an absent award reads as 0; a NaN award raises `InvalidOperation`, which is no scoring error; a negative award (or minus infinity) or one above the criterion maximum (or plus infinity) is refused; a finite award in range is refused only for an empty justification |
| Scorer.NullCriterionIsNone | src/grading/scorer.py:183-184 | with `str` rendering `None` as Python does, an item whose criterion is null is checked exactly as one naming the criterion "None" |
| Scorer.NullJustificationKept | src/grading/scorer.py:230-231 | with `str` rendering `None` as Python does, a null justification is never refused as missing, and an accepted item records "None" |
| Prompts.GetSystemPrompt | src/grading/prompt_builder.py:28-42 | the system prompt opens with the strict-grader role line and demands strictness, no emotions, no favourites, no leniency and JSON output |
| Prompts.RoleLineRules | src/grading/prompt_builder.py:28 | the role line names strictness, no emotions, no favourites and no leniency |
| Prompts.ModeLine | src/grading/prompt_builder.py:109-118 | the mode line starts with `MODE: `; hard-fail mode announces HARD FAIL and ZERO points, and any other mode PROPORTIONAL and partial credit |
| Prompts.HardFailLineSays | src/grading/prompt_builder.py:110-113 | the hard-fail line is a mode line announcing HARD FAIL and ZERO points |
| Prompts.ProportionalLineSays | src/grading/prompt_builder.py:115-118 | the proportional line is a mode line announcing PROPORTIONAL and partial credit |
| Prompts.EntryLine | src/grading/prompt_builder.py:124-129 | a criterion's entry starts with its number, name and maximum, and ends with the no-partial-credit note exactly when the criterion does not allow partial credit |
| Prompts.CriteriaBlocks | src/grading/prompt_builder.py:123-131 | each criterion contributes three lines |
| Prompts.BlocksSnoc | src/grading/prompt_builder.py:123-131 | one more loop step appends the next criterion's three lines, numbered from 1 |
| Prompts.AppendThree | src/grading/prompt_builder.py:129-131 | three appends in a row add the three lines in order |
| Prompts.FormatRubric | src/grading/prompt_builder.py:100-133 | the method with its appending loop returns the rubric section the specification gives |
| Prompts.BuildGradingPrompt | src/grading/prompt_builder.py:44-98 | the method returns the prompt the specification gives |
| Prompts.CriteriaBlocksAt | src/grading/prompt_builder.py:123-131 | the k-th group of three lines belongs to criterion k, numbered k + 1 |
| Prompts.RubricHeaderShape | src/grading/prompt_builder.py:103-121 | the rubric section has the title, total, blank, mode, blank and heading lines, then three lines per criterion |
| Prompts.CriterionLinesAt | src/grading/prompt_builder.py:123-131 | after the header, criterion k in rubric order has its entry numbered k + 1, its description and a blank line |
| Prompts.BlockAt | src/grading/prompt_builder.py:123-131 | a group of three lines after a six-line header sits at positions 6 + 3k to 8 + 3k |
| Prompts.ModeLineUnique | src/grading/prompt_builder.py:103-131 | the mode line is the only line of the rubric section that starts with `MODE: ` |
| Prompts.EntryLineLead | src/grading/prompt_builder.py:129 | a criterion entry starts with a digit |
| Prompts.NoModePrefix | src/grading/prompt_builder.py:103-131 | a line not starting with `M` is not a mode line |
| Prompts.PromptShowsRubric | src/grading/prompt_builder.py:62-98 | the prompt shows the rubric title, its total, the mode line, and every criterion's entry and description |
| Prompts.RubricInPrompt | src/grading/prompt_builder.py:62-67 | the whole rubric section is part of the prompt |
| Prompts.PromptAnnouncesMax | src/grading/prompt_builder.py:85 | the prompt's output format announces the rubric total as max_possible |
| Prompts.AnswerEmbedded | src/grading/prompt_builder.py:69-72 | the student answer appears verbatim between the begin and end markers |
| Stats.Insert | src/grading/engine.py:185 | inserting into an ordered list keeps it ordered and adds exactly the new element |
| Stats.MultisetCons | src/grading/engine.py:185 | putting the head back in front of the rest adds it back to the multiset |
| Stats.ConsOrdered | src/grading/engine.py:185 | an element no larger than the head of an ordered list keeps it ordered in front |
| Stats.InsertLeads | src/grading/engine.py:185 | the head stays in front after inserting a larger element into the tail |
| Stats.Sort | src/grading/engine.py:185 | the sorted scores that `statistics.median` takes the middle of are ordered and a permutation of the scores |
| Stats.OrderedFirst | src/grading/engine.py:185 | the first element of an ordered list is no larger than any element |
| Stats.OrderedLast | src/grading/engine.py:185 | the last element of an ordered list is no smaller than any element |
| Stats.MultisetTail | src/grading/engine.py:185 | dropping the head removes one occurrence of it |
| Stats.OrderedUnique | src/grading/engine.py:185 | two ordered permutations of each other are equal, so sorting has one answer |
| Stats.HeadsAgree | src/grading/engine.py:185 | two ordered permutations have the same head and permuted tails |
| Stats.OrderedTail | src/grading/engine.py:185 | the tail of an ordered list is ordered |
| Stats.SortPermutation | src/grading/engine.py:185 | permuted scores sort to the same list |
| Stats.Min | src/grading/engine.py:209 | `min(scores)` is one of the scores and no larger than any |
| Stats.Max | src/grading/engine.py:209 | `max(scores)` is one of the scores and no smaller than any |
| Stats.SortedFirst | src/grading/engine.py:185 | the first sorted score is the minimum |
| Stats.SortedLast | src/grading/engine.py:185 | the last sorted score is the maximum |
| Stats.MinLeast | src/grading/engine.py:209 | the minimum is no larger than any score |
| Stats.MaxGreatest | src/grading/engine.py:209 | the maximum is no smaller than any score |
| Stats.MedianBetween | src/grading/engine.py:185 | the median lies between the minimum and the maximum |
| Stats.MiddleBetween | src/grading/engine.py:185 | the middle of an ordered list lies between its ends |
| Stats.MedianPermutation | src/grading/engine.py:185 | the median does not depend on the order of the scores |
| Stats.MedianOfEqual | src/grading/engine.py:185 | the median of equal scores is that score |
| Engine.Oracle.constructor | src/grading/llm_client.py:33-49 | a new client has made no request and answers each call by its position |
| Engine.Oracle.Generate | src/grading/llm_client.py:51-80 | each call records its system prompt, user prompt and temperature, and gets the reply for its position in the log |
| Engine.Repeat | src/grading/engine.py:125-132 | the requests of the loop are the same request, once per call |
| Engine.Outcomes | src/grading/engine.py:125-148 | pass k is the outcome of the reply to call start + k, parsed under that call's id |
| Engine.PassesOf | src/grading/engine.py:150-156 | `_perform_passes` never returns an empty list of passes |
| Engine.Scores | src/grading/engine.py:177 | the scores are the passes' total scores, in pass order |
| Engine.Closest | src/grading/engine.py:187-188 | `min` with the distance key picks a pass nearest the median, the first among equally near ones |
| Engine.CriterionLines | src/grading/engine.py:229-231 | the rubric text has one line per criterion, in order |
| Engine.ResultLines | src/grading/engine.py:234-236 | the result text has one line per criterion result, in order |
| Engine.GradingEngine.constructor | src/grading/engine.py:36-46 | the engine keeps its settings, client and conversions, and holds the prompt builder and the response parser |
| Engine.GradingEngine.Grade | src/grading/engine.py:48-98 | `grade` picks the mode and the pass count (an override of 0 or none falls back to the settings), returns what the specification gives for the outcomes of its own calls, and sends one identical request per call it made |
| Engine.GradingEngine.RunPass | src/grading/engine.py:126-148 | a failed call is skipped with its error; a parsed reply becomes a pass scored by its total; a scoring error is skipped, and any other parse error escapes |
| Engine.GradingEngine.PerformPasses | src/grading/engine.py:100-156 | the loop builds both prompts once, calls the client once per pass until an error escapes, and returns the specification's passes or error |
| Engine.GatherStep | src/grading/engine.py:125-148 | one more outcome appends a pass, records an error, or ends the loop with the escaped error |
| Engine.RepeatSnoc | src/grading/engine.py:128-132 | one more call appends one more identical request |
| Engine.EscapeEnds | src/grading/engine.py:145-148 | an error that escapes the loop is what `_perform_passes` raises, after exactly the calls made up to it |
| Engine.EscapePersists | src/grading/engine.py:125-148 | once an error escapes, no later pass runs |
| Engine.NoEscapeCalls | src/grading/engine.py:125-148 | without an escape, every pass makes one call |
| Engine.GatherNoEscape | src/grading/engine.py:125-148 | without an escape, the loop collects every success in order and every recorded error in order |
| Engine.GatherEscapes | src/grading/engine.py:125-148 | the loop ends with an error exactly when some outcome escapes |
| Engine.FirstEscapeRaised | src/grading/engine.py:125-156 | the first escaping error is the one raised, after that many calls plus one |
| Engine.PassesWithoutEscape | src/grading/engine.py:150-156 | without an escape, the passes are all the successes, and with none the first recorded error is raised, or "no successful grading passes" when there is none |
| Engine.PassesReturned | src/grading/engine.py:150-156 | returned passes mean nothing escaped, and they are the successes in order |
| Engine.EveryCallAccounted | src/grading/engine.py:125-148 | without an escape, every call gives either a pass or a recorded error |
| Engine.SuccessesMembers | src/grading/engine.py:137-143 | a pass is kept exactly when some call produced it |
| Engine.FirstErrorReraised | src/grading/engine.py:151-153 | when every pass fails with a recorded error, the first one is raised after all the calls |
| Engine.AllSkipped | src/grading/engine.py:145-148 | when every pass is skipped, there is no pass and the first recorded error is the first outcome's |
| Engine.NoPassesAsked | src/grading/engine.py:151-154 | a pass count below one makes no call and raises "no successful grading passes" |
| Engine.CallsAtMostPasses | src/grading/engine.py:125 | the loop makes at most one call per pass |
| Engine.SelectedSpec | src/grading/engine.py:158-190 | one pass is returned as is without variance; with two or more, variance is detected exactly when the spread exceeds the threshold, and the pass chosen is one nearest the median, the first among equally near ones |
| Engine.AgreeingPasses | src/grading/engine.py:158-190 | passes that all agree give the first pass and no variance |
| Engine.ClosestOfEqual | src/grading/engine.py:187-188 | among equal scores, the first pass is nearest |
| Engine.VarianceZeroIffAgree | src/grading/engine.py:192-212 | fewer than two passes or a zero total maximum give a spread of 0; otherwise the spread is zero exactly when all the scores agree |
| Engine.VarianceBounded | src/grading/engine.py:192-212 | scores within [0, total max] give a spread between 0 and 100 percent |
| Engine.GradedMeta | src/grading/engine.py:79-98 | the result is the chosen pass's with `num_passes` passes used, variance detected exactly when two or more passes spread beyond the threshold, review flagged exactly when variance is detected, and the audit holds the digests of the rubric text, the answer and the result text with the model, temperature and pass count |
| Engine.ParsedResult | src/grading/scorer.py:36-149 | what the response parser returns is valid, for this rubric and id, matches the rubric's criteria, keeps its award within its maximum, and has the rubric's total when names are distinct up to case |
| Engine.ParserOfKeeps | src/grading/engine.py:46 | the engine's parser keeps to what the response parser promises |
| Engine.OutcomesKept | src/grading/engine.py:125-143 | every kept pass answers its own call, carries that call's id, and holds a result the parser may return |
| Engine.ReturnedKept | src/grading/engine.py:150-156 | the passes returned are among the kept passes |
| Engine.GradedValid | src/grading/engine.py:48-98 | from kept passes, `grade` returns a valid result for the rubric, matching its criteria, under the id of one of its calls, with `num_passes` passes used |
| Engine.GradeValid | src/grading/engine.py:48-98 | what `grade` returns is a valid result for the rubric, matching its criteria, under the id of one of its own calls, with `num_passes` passes used |
| Engine.KeptVarianceBounded | src/grading/engine.py:192-212 | when names are distinct up to case and the total is positive, the spread of kept passes lies in [0, 100] percent |
| Engine.ParsedVarianceBounded | src/grading/engine.py:192-212 | the spread of the passes `_perform_passes` returns lies in [0, 100] percent for such a rubric |
| Engine.RubricContentLines | src/grading/engine.py:228-231 | the hashed rubric text starts with the title line and holds every criterion's line |
| Engine.ResultContentLines | src/grading/engine.py:233-236 | the hashed result text starts with `awarded/max` and holds every criterion result's line |
| Extractors.FileName | src/extractors/factory.py:52-53 | the file name is a tail of the path holding no `/` |
| Extractors.LastDot | src/extractors/factory.py:53 | the last dot of a name is a dot with none after it, or the name has no dot |
| Extractors.Suffix | src/extractors/factory.py:53 | `Path.suffix`, when not empty, is a dot and at least one character with no further dot or `/`, ends the path, and is shorter than the file name |
| Extractors.FirstSupporting | src/extractors/factory.py:55-57 | the extractor chosen is in the registry and lists the extension, and none is chosen exactly when no registered extractor lists it |
| Extractors.AllExtensions | src/extractors/factory.py:33-35 | the collected extensions are exactly those some registered extractor lists |
| Extractors.ConsIncreasing | src/extractors/factory.py:36 | an element smaller than all of a strictly increasing list keeps it strictly increasing in front |
| Extractors.InsertNew | src/extractors/factory.py:36 | inserting into a strictly increasing list keeps it strictly increasing and adds exactly the new element |
| Extractors.SortedSet | src/extractors/factory.py:36 | `tuple(sorted(set(xs)))` is strictly increasing and holds exactly the elements of `xs` |
| Extractors.GetSupportedExtensions | src/extractors/factory.py:26-36 | the loop extending the list over the registry returns the sorted set of all registered extensions |
| Extractors.IncreasingUnique | src/extractors/factory.py:36 | two strictly increasing lists with the same elements are equal, so the sorted set has one answer |
| Extractors.HeadIn | src/extractors/factory.py:36 | the head of a non-empty list is one of its elements |
| Extractors.TailsAgree | src/extractors/factory.py:36 | strictly increasing lists with the same elements and the same head have strictly increasing tails with the same elements |
| Extractors.SupportedList | src/extractors/factory.py:26-36 | the supported extensions are `.docx`, `.md`, `.pdf`, `.txt`, `.xls`, `.xlsx`, in that order |
| Extractors.ChainIncreasing | src/extractors/factory.py:36 | a list whose neighbours are in increasing order is strictly increasing |
| Extractors.ExtensionsDisjoint | src/extractors/factory.py:18-23 | no extension is listed by two extractors, so registry order never decides between them |
| Extractors.CreatedIffSupports | src/extractors/factory.py:39-57 | `create_extractor` returns an extractor of a kind exactly when that kind's `supports` accepts the path |
| Extractors.RegistryExtensions | src/extractors/factory.py:33-35 | the registry lists `.pdf`, `.docx`, `.xlsx`, `.xls`, `.txt`, `.md` in that order |
| Extractors.RefusedIffUnlisted | src/extractors/factory.py:52-63 | a path is refused exactly when its lower-cased suffix is not among the supported extensions |
| Extractors.RefusalMessage | src/extractors/factory.py:59-63 | the error carries the path, its message starts with `Unsupported file format '<suffix>'`, and its displayed text starts with `Failed to extract '<path>': ` and says the format is unsupported |
| Extractors.RefusalText | src/extractors/base.py:22-25 | the message starts with `Unsupported file format '<ext>'`, and the displayed error starts with `Failed to extract '<path>': ` and holds the word "Unsupported" from the message |
| Extractors.KindOfEachExtension | src/extractors/factory.py:55-57 | `.pdf` gets the PDF extractor, `.docx` the Word one, `.xlsx` and `.xls` the Excel one, `.txt` and `.md` the text one, in any letter case |
| Extractors.FileNameOfName | src/extractors/factory.py:52-53 | a path without `/` is its own file name |
| Extractors.LastDotAt | src/extractors/factory.py:53 | a dot with no dot after it is the last dot |
| Extractors.SuffixOfName | src/extractors/factory.py:53 | a stem followed by a dot and characters with no further dot has those as its suffix |
| Extractors.TextFileExample | src/extractors/factory.py:39-57 | a file named like `test.txt` gets the text extractor |
| Extractors.ImageFileExample | src/extractors/factory.py:55-63 | a file named like `test.jpg` is refused |
| Extractors.LowerSuffix | src/extractors/factory.py:53 | a suffix without capital letters is its own lower-cased form |
| Extractors.JpgUnlisted | src/extractors/factory.py:18-23 | no registered extractor lists `.jpg` |

## Left out

- Floating point: the median, the variance, the percentages, the temperature and the variance threshold are exact reals, not floats.
- UUIDs and timestamps (`id`, `graded_at`, audit `timestamp`): a result's id is a number supplied by the caller (the engine uses the pass index), and the timestamps are dropped.
- The language-model client (`src/grading/llm_client.py`): the network call, retries and back-off are not modelled. The oracle answers with a reply (text or failure) chosen by call position, and it logs each request.
- `json.loads`: decoding is an abstract function `decode` onto a small JSON datatype. Reconciliation is proved for any decoder.
- SHA-256 is an abstract function `hash`; only the canonical texts it is applied to are modelled.
- `str(Decimal)`, `str(float)` and `str()` of non-string JSON values are abstract functions (`fmt`, `show`), and no property relies on what they return. `Scorer.PyShow` names the renderings Python gives `None`, `True` and `False`; only `Scorer.NullCriterionIsNone` and `Scorer.NullJustificationKept` assume it. `fmt` sees only the value of a decimal, not its exponent, so `Decimal("10.50")` and `Decimal("10.5")` render alike. This affects the points in the prompt, the total possible points, `max_possible` and the hashed audit texts.
- General regular-expression semantics: the line patterns of the rubric parser are hand-written matchers for stripped lines, not a regular-expression engine. The round trips in `RubricFormats` cover each format written with single spaces (`{n}. {name} ({points} {unit}): {description}`, `{name} – {points} {unit} – {description}`, `{name}: {points} {unit}{separators}{description}`). Other spacings, a colon line whose name or description holds a dash, and a numbered line without a description are covered only by the matchers themselves and by `RubricParser.BuildMeaning`. A table row is characterised cell by cell.
- The `InvalidOperation` branch of `_parse_points` cannot be reached: every token the matchers hand it is a valid decimal.
- Pydantic coercion: fields arrive already typed. The partial-credit default is an explicit boolean, and the variance and review flags are set explicitly by the engine.
- `GradingEngine.health_check`: only a network probe of the client.
- `extract_document`, the extractor implementations and `DocumentExtractor._validate_file`: file-system and third-party I/O. Only the extension lists of the four extractor classes are kept.
- `ExtractedDocument` (`src/models.py`), its character count and content hash: it belongs to document extraction, which is not modelled.
- `src/config.py` (environment loading, `get_settings`): settings are passed explicitly, and `StrictnessMode` is a two-value datatype.
- `pathlib` normalisation: the suffix is taken from the text after the last `/`; Windows separators and trailing separators are not modelled, and `str(Path)` is the path text itself.
- Unicode: `lower()` maps ASCII letters only; whitespace is the set Python's `str.isspace` accepts; digits are ASCII only.
- RubricValidator.VagueIssue: the listed words are a set, so the order in which the issue text names them is an abstract `listing` function rather than the word-list order.
- `RubricParseError`, `RubricValidationError` and `ScoringError` messages: errors are datatype values carrying the same data, not the message text. The validator's issue texts and the engine's "No successful grading passes completed" are spelled out.
- `src/output`, `src/main.py` and the package `__init__` files: the report, audit-trail and command-line layers are not part of this model.

## Findings

| source | as written | input that shows it | evidently intended | confidence | as-written member | corrected member |
|---|---|---|---|---|---|---|
| src/grading/scorer.py:172 | the criterion lookup is a dictionary keyed by the lower-cased name, so of two criteria whose names differ only in case the later one replaces the earlier; the rubric model (src/models.py:119-126) compares names exactly and accepts both | a rubric with "Content" (10 points) and "content" (5 points); a response with max_possible 15 and one item "content" awarded 5 with a justification is accepted, and the "Content" criterion is never graded | every criterion of the rubric is graded exactly once, so the results cover the rubric and total_max equals the rubric's total | not executed; the command-line path runs the validator first, which reports names equal up to case, but the engine accepts such a rubric directly | Scorer.CaseVariantNamesDropCriterion, with Scorer.CaseVariantRubricAccepted | Scorer.ConvertedCovers (for rubrics whose names are distinct up to case, `Scorer.CaselessDistinct`) |
