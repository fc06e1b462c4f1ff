/**
 * Round trips of the three criterion line shapes through the rubric parser:
 * a numbered, a dash-separated or a colon-separated line written from a
 * name, a points token, a unit word and a description is read back as the
 * criterion made of exactly those parts, or as the error the parser gives
 * for them.
 *
 * Each proof goes in small steps: where the parts stand in the line, where
 * each run of the matcher ends, what the matcher then returns, and which
 * format the parser lets decide.
 */
module RubricFormats {
  import opened Wrappers
  import opened Text
  import opened Models
  import opened RubricParser

  // ----------------------------------------------------------------- read back

  /** What a line shape asks of the name and description it carries: stripped and not empty. */
  predicate Field(s: string) {
    s != [] && IsStripped(s)
  }

  /**
   * What a line whose groups are `name`, `description` and a token worth
   * `points` gives: the points error of that line when the points are not
   * positive, the criterion when the constructor accepts the values, and a
   * validation error when the points exceed 1000 or the name 200 characters.
   */
  predicate ReadsBack(o: LineOutcome, name: string, description: string, points: real, lineNum: nat) {
    && (points <= 0.0 ==> o == Failed(ParseError(NonPositivePoints(points, lineNum))))
    && (0.0 < points <= 1000.0 && |name| <= 200 ==> o == Parsed(Criterion(name, description, points, true)))
    && (0.0 < points && (1000.0 < points || 200 < |name|) ==> o.Failed? && o.failure.ValidationError?)
  }

  /** A stripped line the numbered pattern matches is read by `_try_numbered_format`. */
  lemma ParsedAsNumbered(line: string, lineNum: nat, g: Groups)
    requires IsStripped(line) && !IsSkipped(line)
    requires NumberedGroups(line) == Some(g)
    ensures ParseLine(line, lineNum) == Build(g, lineNum, true)
  {
    StripOfStripped(line);
  }

  /** A stripped line only the dash pattern matches is read by `_try_simple_format`. */
  lemma ParsedAsDash(line: string, lineNum: nat, g: Groups)
    requires IsStripped(line) && !IsSkipped(line)
    requires NumberedGroups(line) == None && DashGroups(line) == Some(g)
    ensures ParseLine(line, lineNum) == Build(g, lineNum, false)
  {
    StripOfStripped(line);
  }

  /** A stripped line only the colon pattern matches is read by `_try_colon_format`. */
  lemma ParsedAsColon(line: string, lineNum: nat, g: Groups)
    requires IsStripped(line) && !IsSkipped(line)
    requires NumberedGroups(line) == None && DashGroups(line) == None && ColonGroups(line) == Some(g)
    ensures ParseLine(line, lineNum) == Build(g, lineNum, false)
  {
    StripOfStripped(line);
  }

  /** A line that starts with none of `#`, `-`, `|` is not passed over. */
  lemma NotSkipped(line: string)
    requires line != [] && line[0] != '#' && line[0] != '-' && line[0] != '|'
    ensures !IsSkipped(line)
  {
    assert !StartsWith(line, "#") by { assert line[..1][0] == line[0]; }
    assert !StartsWith(line, "---") by { if |line| >= 3 { assert line[..3][0] == line[0]; } }
    assert !StartsWith(line, "|") by { assert line[..1][0] == line[0]; }
  }

  // ------------------------------------------------------------ numbered lines

  /** `{num}. {name} ({points} {unit}): {description}`, the first line shape the parser reads. */
  function NumberedText(num: nat, name: string, token: string, unit: string, description: string): string {
    (NatText(num) + ". " + name + " (") + (token + " " + unit + "): " + description)
  }

  /** What the numbered shape asks of its parts for the line to read back as written. */
  predicate NumberedParts(name: string, token: string, unit: string, description: string) {
    && Field(name) && '(' !in name
    && IsNumberToken(token) && IsUnitWord(unit)
    && Field(description) && description[0] != ':'
  }

  /** The line up to the `(`: `{num}. {name} (`. */
  lemma NumberedHeadPieces(num: nat, name: string)
    ensures var h := NatText(num) + ". " + name + " (";
      var d := |NatText(num)|;
      var open := d + 3 + |name|;
      && |h| == open + 1
      && h[0..d] == NatText(num) && h[d] == '.'
      && h[d + 1..open] == " " + name + " " && h[open] == '('
      && (forall k :: d + 2 <= k < open - 1 ==> h[k] == name[k - d - 2])
  {
  }

  /** The line after the `(`: `{points} {unit}): {description}`. */
  lemma NumberedRestPieces(token: string, unit: string, description: string)
    ensures var r := token + " " + unit + "): " + description;
      var e := |token| + 1 + |unit|;
      && |r| == e + 3 + |description|
      && r[0..|token|] == token && r[|token|] == ' '
      && r[|token| + 1..e] == unit && r[e] == ')'
      && r[e + 1..|r|] == ": " + description
  {
  }

  /**
   * The numbered pattern matches a stripped line that has, in this order, a
   * run of `d` digits, a `.`, a name holding no `(`, a `(` at `open`, a
   * number token ending at `n`, one space, a unit word ending at `e` and a `)`.
   */
  lemma MatchNumberedAt(line: string, d: nat, open: nat, n: nat, e: nat)
    requires IsStripped(line)
    requires 0 < d && d + 1 < open && open + 1 < n && n + 1 < e < |line|
    requires DigitRun(line, 0) == d && line[d] == '.'
    requires CharIndex(line, '(', d + 1) == open
    requires NumberEnd(line, open + 1) == n && SpaceRun(line, n) == 1
    requires UnitEnd(line, n + 1, true) == e && line[e] == ')'
    ensures MatchNumbered(line) == Some(Spans(d + 1, open, open + 1, n, e + 1))
  {
  }

  /** Where the number, the name and the `(` of a numbered line stand. */
  lemma NumberedLayoutHead(line: string, num: nat, name: string, token: string, unit: string, description: string,
                           d: nat, open: nat)
    requires line == NumberedText(num, name, token, unit, description)
    requires d == |NatText(num)| && open == d + 3 + |name|
    ensures open < |line|
    ensures line[0..d] == NatText(num) && line[d] == '.'
    ensures line[d + 1..open] == " " + name + " " && line[open] == '('
  {
    var h := NatText(num) + ". " + name + " (";
    var r := token + " " + unit + "): " + description;
    NumberedHeadPieces(num, name);
    SliceOfAppend(h, r, 0, d);
    SliceOfAppend(h, r, d + 1, open);
  }

  /** Where the points, the unit and the description of a numbered line stand. */
  lemma NumberedLayoutRest(line: string, num: nat, name: string, token: string, unit: string, description: string,
                           open: nat, n: nat, e: nat)
    requires line == NumberedText(num, name, token, unit, description)
    requires open == |NatText(num)| + 3 + |name| && n == open + 1 + |token| && e == n + 1 + |unit|
    ensures |line| == e + 3 + |description|
    ensures line[open + 1..n] == token && line[n] == ' '
    ensures line[n + 1..e] == unit && line[e] == ')'
    ensures line[e + 1..] == ": " + description
  {
    var h := NatText(num) + ". " + name + " (";
    var r := token + " " + unit + "): " + description;
    NumberedHeadPieces(num, name);
    NumberedRestPieces(token, unit, description);
    SliceOfAppend(h, r, |h|, n);
    SliceOfAppend(h, r, n + 1, e);
    SliceOfAppend(h, r, e + 1, |line|);
    assert line[e + 1..] == line[e + 1..|line|];
  }

  /** Digits, a `.` and a name holding no `(` up to the `(` at `open`. */
  lemma NumberedHeadRuns(line: string, name: string, d: nat, open: nat)
    requires '(' !in name
    requires 0 < d && open == d + 3 + |name| && open < |line|
    requires AllDigits(line[0..d]) && line[d] == '.'
    requires line[d + 1..open] == " " + name + " " && line[open] == '('
    ensures DigitRun(line, 0) == d
    ensures CharIndex(line, '(', d + 1) == open
  {
    DigitRunOver(line, 0, d);
    forall k | d + 1 <= k < open ensures line[k] != '(' {
      assert line[k] == (" " + name + " ")[k - d - 1];
    }
    CharIndexAt(line, '(', d + 1, open);
  }

  /** One space and a unit word ending at `e`, not followed by an `s`. */
  lemma UnitRuns(line: string, unit: string, n: nat, e: nat)
    requires IsUnitWord(unit)
    requires e == n + 1 + |unit| && e < |line|
    requires line[n] == ' ' && line[n + 1..e] == unit && LowerChar(line[e]) != 's'
    ensures SpaceRun(line, n) == 1
    ensures UnitEnd(line, n + 1, true) == e
  {
    assert !IsSpace(line[n + 1]) by {
      assert line[n + 1] == unit[0];
      assert LowerChar(unit[0]) == Lower(unit)[0];
    }
    assert line[n..n + 1] == [' '];
    SpaceRunOver(line, n, 1);
    UnitEndWord(line, n + 1, unit);
  }

  lemma ColonSpaceOver(description: string)
    requires Field(description) && description[0] != ':'
    ensures DropColonSpace(": " + description) == description
  {
    assert DropColonSpace(description) == description;
    assert (" " + description)[1..] == description;
    assert DropColonSpace(" " + description) == description;
    assert (": " + description)[1..] == " " + description;
  }

  /** The groups of a stripped line whose runs end where the numbered pattern needs them to. */
  lemma NumberedGroupsAt(line: string, d: nat, open: nat, n: nat, e: nat)
    requires IsStripped(line)
    requires d + 1 <= open < n && e < |line|
    requires MatchNumbered(line) == Some(Spans(d + 1, open, open + 1, n, e + 1))
    ensures NumberedGroups(line) == Some(Groups(Strip(line[d + 1..open]), line[open + 1..n], Strip(DropColonSpace(line[e + 1..]))))
  {
  }

  /** The number, the `.` and the name of a numbered line, up to the `(`. */
  lemma NumberedHead(line: string, num: nat, name: string, token: string, unit: string, description: string,
                     d: nat, open: nat)
    requires Field(name) && '(' !in name
    requires line == NumberedText(num, name, token, unit, description)
    requires d == |NatText(num)| && open == d + 3 + |name|
    ensures 0 < d && d + 1 < open < |line|
    ensures DigitRun(line, 0) == d && line[d] == '.'
    ensures CharIndex(line, '(', d + 1) == open
    ensures Strip(line[d + 1..open]) == name
  {
    NumberedLayoutHead(line, num, name, token, unit, description, d, open);
    NatTextDigits(num);
    NumberedHeadRuns(line, name, d, open);
    StripPadded(" ", name, " ");
  }

  /** The points token of a numbered line is the whole number found after the `(`. */
  lemma NumberedToken(line: string, num: nat, name: string, token: string, unit: string, description: string,
                      open: nat, n: nat)
    requires IsNumberToken(token)
    requires line == NumberedText(num, name, token, unit, description)
    requires open == |NatText(num)| + 3 + |name| && n == open + 1 + |token|
    ensures open + 1 < n < |line|
    ensures NumberEnd(line, open + 1) == n && line[open + 1..n] == token
  {
    NumberedLayoutRest(line, num, name, token, unit, description, open, n, n + 1 + |unit|);
    NumberEndOver(line, open + 1, token);
    assert NumberEnd(line, open + 1) == open + 1 + |token|;
  }

  /** A numbered line is stripped, and what follows its `)` reads back as the description. */
  lemma NumberedDescription(line: string, num: nat, name: string, token: string, unit: string, description: string,
                            e: nat)
    requires Field(description) && description[0] != ':'
    requires line == NumberedText(num, name, token, unit, description)
    requires e == |NatText(num)| + 5 + |name| + |token| + |unit|
    ensures IsStripped(line)
    ensures e < |line| && line[e] == ')'
    ensures Strip(DropColonSpace(line[e + 1..])) == description
  {
    var d := |NatText(num)|;
    var open := d + 3 + |name|;
    NumberedLayoutHead(line, num, name, token, unit, description, d, open);
    NumberedLayoutRest(line, num, name, token, unit, description, open, open + 1 + |token|, e);
    NatTextDigits(num);
    assert IsStripped(line) by {
      assert line[0] == line[0..d][0];
      assert line[|line| - 1] == line[e + 1..][|line| - e - 2];
    }
    ColonSpaceOver(description);
    StripOfStripped(description);
  }

  /** The unit word of a numbered line ends at the `)`. */
  lemma NumberedUnit(line: string, num: nat, name: string, token: string, unit: string, description: string,
                     n: nat, e: nat)
    requires IsUnitWord(unit)
    requires line == NumberedText(num, name, token, unit, description)
    requires n == |NatText(num)| + 4 + |name| + |token| && e == n + 1 + |unit|
    ensures n + 1 < e && SpaceRun(line, n) == 1 && UnitEnd(line, n + 1, true) == e
  {
    NumberedLayoutRest(line, num, name, token, unit, description, |NatText(num)| + 3 + |name|, n, e);
    UnitRuns(line, unit, n, e);
  }

  lemma NumberedTry(num: nat, name: string, token: string, unit: string, description: string)
    requires NumberedParts(name, token, unit, description)
    ensures var line := NumberedText(num, name, token, unit, description);
      IsStripped(line) && NumberedGroups(line) == Some(Groups(name, token, description))
  {
    var line := NumberedText(num, name, token, unit, description);
    var d := |NatText(num)|;
    var open := d + 3 + |name|;
    var n := open + 1 + |token|;
    var e := n + 1 + |unit|;
    NumberedHead(line, num, name, token, unit, description, d, open);
    NumberedToken(line, num, name, token, unit, description, open, n);
    NumberedDescription(line, num, name, token, unit, description, e);
    NumberedUnit(line, num, name, token, unit, description, n, e);
    MatchNumberedAt(line, d, open, n, e);
    NumberedGroupsAt(line, d, open, n, e);
  }

  /**
   * `{num}. {name} ({points} {unit}): {description}` reads back as the
   * criterion of that name, description and exact points value, whatever the
   * case of the unit word, or as the error its points or name call for.
   */
  lemma NumberedLineParses(num: nat, name: string, token: string, unit: string, description: string, lineNum: nat)
    requires NumberedParts(name, token, unit, description)
    ensures ReadsBack(ParseLine(NumberedText(num, name, token, unit, description), lineNum),
                      name, description, TokenValue(token), lineNum)
  {
    var line := NumberedText(num, name, token, unit, description);
    NumberedTry(num, name, token, unit, description);
    NatTextDigits(num);
    assert line[0] == NatText(num)[0];
    NotSkipped(line);
    var g := Groups(name, token, description);
    ParsedAsNumbered(line, lineNum, g);
    BuildMeaning(g, lineNum, true);
  }

  // ------------------------------------------------------ dash-separated lines

  /** `{name} - {points} {unit} - {description}`, with any of the three dashes in either place. */
  function DashText(name: string, first: char, token: string, unit: string, second: char, description: string): string {
    (name + " " + [first] + " ") + (token + " " + unit + " " + [second] + " " + description)
  }

  /** What the dash shape asks of its parts for the line to read back as written. */
  predicate DashParts(name: string, first: char, token: string, unit: string, second: char, description: string) {
    && Field(name) && NoDashChars(name) && !IsDigit(name[0]) && name[0] != '#' && name[0] != '|'
    && IsDash(first) && IsNumberToken(token) && IsUnitWord(unit) && IsDash(second)
    && Field(description)
  }

  lemma DashHeadPieces(name: string, first: char)
    ensures var h := name + " " + [first] + " ";
      && |h| == |name| + 3
      && h[0..|name| + 1] == name + " " && h[|name| + 1] == first && h[|name| + 2] == ' '
      && (forall k :: 0 <= k < |name| ==> h[k] == name[k])
  {
  }

  lemma DashRestPieces(token: string, unit: string, second: char, description: string)
    ensures var r := token + " " + unit + " " + [second] + " " + description;
      var e := |token| + 1 + |unit|;
      && |r| == e + 3 + |description|
      && r[0..|token|] == token && r[|token|] == ' '
      && r[|token| + 1..e] == unit && r[e] == ' ' && r[e + 1] == second
      && r[e + 2..|r|] == " " + description
  {
    var r := token + " " + unit + " " + [second] + " " + description;
    var e := |token| + 1 + |unit|;
    var tail := [second] + " " + description;
    assert r == (token + " ") + (unit + " " + tail);
    SliceOfAppend(token + " ", unit + " " + tail, 0, |token|);
    SliceOfAppend(token + " ", unit + " " + tail, |token| + 1, e);
    SliceOfAppend(token + " ", unit + " " + tail, e + 2, |r|);
  }

  /** Where the name and the first dash of a dash line stand. */
  lemma DashLayoutHead(line: string, name: string, first: char, token: string, unit: string, second: char, description: string)
    requires line == DashText(name, first, token, unit, second, description)
    ensures |name| + 2 < |line|
    ensures line[0..|name| + 1] == name + " " && line[|name| + 1] == first && line[|name| + 2] == ' '
    ensures forall k :: 0 <= k < |name| ==> line[k] == name[k]
  {
    var h := name + " " + [first] + " ";
    var r := token + " " + unit + " " + [second] + " " + description;
    DashHeadPieces(name, first);
    SliceOfAppend(h, r, 0, |name| + 1);
  }

  /** Where the points, the unit, the second dash and the description of a dash line stand. */
  lemma DashLayoutRest(line: string, name: string, first: char, token: string, unit: string, second: char, description: string,
                       a: nat, n: nat, e: nat)
    requires line == DashText(name, first, token, unit, second, description)
    requires a == |name| + 3 && n == a + |token| && e == n + 1 + |unit|
    ensures |line| == e + 3 + |description|
    ensures line[a..n] == token && line[n] == ' '
    ensures line[n + 1..e] == unit && line[e] == ' ' && line[e + 1] == second
    ensures line[e + 2..] == " " + description
  {
    var h := name + " " + [first] + " ";
    var r := token + " " + unit + " " + [second] + " " + description;
    DashHeadPieces(name, first);
    DashRestPieces(token, unit, second, description);
    SliceOfAppend(h, r, a, n);
    SliceOfAppend(h, r, n + 1, e);
    SliceOfAppend(h, r, e + 2, |line|);
    assert line[e + 2..] == line[e + 2..|line|];
  }

  /** The lazy name of the dash pattern can end neither right after a `-` nor before a non-dash. */
  predicate PassesDash(line: string, k: nat)
    requires 1 <= k < |line|
  {
    line[k - 1] != '-' && !IsDash(line[k])
  }

  /** The lazy name goes past every position that the dash pattern cannot stop at. */
  lemma {:induction false} DashFromSkips(line: string, i: nat, j: nat)
    requires 1 <= i <= j <= |line|
    requires forall k :: i <= k < j ==> PassesDash(line, k)
    ensures DashFrom(line, i) == DashFrom(line, j)
    decreases j - i
  {
    if i < j {
      assert PassesDash(line, i);
      DashFromSkips(line, i + 1, j);
    }
  }

  /** The rest of the dash pattern after a dash at `d`: one space, a token, one space, a unit word, one space, a dash. */
  lemma DashTailAt(line: string, d: nat, n: nat, e: nat)
    requires d + 2 < n < e && e + 2 < |line|
    requires SpaceRun(line, d + 1) == 1 && NumberEnd(line, d + 2) == n
    requires SpaceRun(line, n) == 1 && UnitEnd(line, n + 1, true) == e && n + 1 < e
    requires SpaceRun(line, e) == 1 && IsDash(line[e + 1])
    ensures DashTail(line, d) == Some(Spans(0, d, d + 2, n, e + 2))
  {
  }

  /** A name free of dashes followed by one space: the lazy name reaches the position after it. */
  lemma DashHeadRuns(line: string, name: string, d: nat)
    requires NoDashChars(name) && d == |name| + 1 && d < |line|
    requires line[0..d] == name + " "
    ensures DashFrom(line, 1) == DashFrom(line, d)
  {
    forall k | 1 <= k < d ensures PassesDash(line, k) {
      assert line[k - 1] == line[0..d][k - 1] == name[k - 1];
      assert line[k] == line[0..d][k];
      if k < |name| {
        assert line[k] == name[k];
      }
    }
    DashFromSkips(line, 1, d);
  }

  /** A name free of dashes, one space and a dash: the lazy name stops at that dash. */
  lemma DashHead(line: string, name: string, first: char, token: string, unit: string, second: char, description: string)
    requires Field(name) && NoDashChars(name) && IsDash(first)
    requires line == DashText(name, first, token, unit, second, description)
    ensures DashFrom(line, 1) == DashFrom(line, |name| + 1)
    ensures |name| + 2 < |line| && line[|name|] != '-' && IsDash(line[|name| + 1])
    ensures Strip(line[0..|name| + 1]) == name
  {
    DashLayoutHead(line, name, first, token, unit, second, description);
    assert line[|name|] == line[0..|name| + 1][|name|];
    DashHeadRuns(line, name, |name| + 1);
    StripPadded("", name, " ");
    assert "" + name + " " == name + " ";
  }

  /** One space, then a number token ending before a space. */
  lemma TokenRuns(line: string, token: string, a: nat, n: nat)
    requires IsNumberToken(token)
    requires 1 <= a && n == a + |token| && n < |line|
    requires line[a - 1] == ' ' && line[a..n] == token && line[n] == ' '
    ensures SpaceRun(line, a - 1) == 1 && NumberEnd(line, a) == n
  {
    assert line[a] == line[a..n][0] == token[0];
    assert line[a - 1..a] == [' '];
    SpaceRunOver(line, a - 1, 1);
    NumberEndOver(line, a, token);
  }

  /** The token of a dash line, after one space, is the whole number found there. */
  lemma DashToken(line: string, name: string, first: char, token: string, unit: string, second: char, description: string,
                  n: nat)
    requires IsNumberToken(token)
    requires line == DashText(name, first, token, unit, second, description)
    requires n == |name| + 3 + |token|
    ensures |name| + 3 < n < |line|
    ensures SpaceRun(line, |name| + 2) == 1 && NumberEnd(line, |name| + 3) == n
    ensures line[|name| + 3..n] == token
  {
    DashLayoutHead(line, name, first, token, unit, second, description);
    DashLayoutRest(line, name, first, token, unit, second, description, |name| + 3, n, n + 1 + |unit|);
    TokenRuns(line, token, |name| + 3, n);
  }

  /** The unit word of a dash line, between single spaces, ends before the second dash. */
  lemma DashUnit(line: string, name: string, first: char, token: string, unit: string, second: char, description: string,
                 n: nat, e: nat)
    requires IsUnitWord(unit) && IsDash(second)
    requires line == DashText(name, first, token, unit, second, description)
    requires n == |name| + 3 + |token| && e == n + 1 + |unit|
    ensures n + 1 < e && e + 2 < |line|
    ensures SpaceRun(line, n) == 1 && UnitEnd(line, n + 1, true) == e
    ensures SpaceRun(line, e) == 1 && IsDash(line[e + 1])
  {
    DashLayoutRest(line, name, first, token, unit, second, description, |name| + 3, n, e);
    UnitRuns(line, unit, n, e);
    assert line[e..e + 1] == [' '];
    SpaceRunOver(line, e, 1);
  }

  /** A dash line is stripped, and what follows its second dash strips to the description. */
  lemma DashDescription(line: string, name: string, first: char, token: string, unit: string, second: char, description: string,
                        e: nat)
    requires Field(name) && Field(description)
    requires line == DashText(name, first, token, unit, second, description)
    requires e == |name| + 4 + |token| + |unit|
    ensures IsStripped(line) && line[0] == name[0]
    ensures e + 2 < |line| && Strip(line[e + 2..]) == description
  {
    DashLayoutHead(line, name, first, token, unit, second, description);
    DashLayoutRest(line, name, first, token, unit, second, description, |name| + 3, |name| + 3 + |token|, e);
    assert line[|line| - 1] == line[e + 2..][|line| - e - 3];
    StripPadded(" ", description, "");
    assert " " + description + "" == " " + description;
  }

  /** A line starting with something other than a digit is not a numbered line. */
  lemma NotNumbered(line: string)
    requires IsStripped(line) && line != [] && !IsDigit(line[0])
    ensures NumberedGroups(line) == None
  {
  }

  lemma DashGroupsAt(line: string, d: nat, n: nat, e: nat)
    requires IsStripped(line) && d + 2 <= n && e + 2 <= |line|
    requires MatchDash(line) == Some(Spans(0, d, d + 2, n, e + 2))
    ensures DashGroups(line) == Some(Groups(Strip(line[0..d]), line[d + 2..n], Strip(line[e + 2..])))
  {
  }

  /** A dash line, its parts in place, is matched by the dash pattern only, each part as its own group. */
  lemma DashTry(name: string, first: char, token: string, unit: string, second: char, description: string)
    requires DashParts(name, first, token, unit, second, description)
    ensures var line := DashText(name, first, token, unit, second, description);
      && IsStripped(line) && line[0] == name[0]
      && NumberedGroups(line) == None
      && DashGroups(line) == Some(Groups(name, token, description))
  {
    var line := DashText(name, first, token, unit, second, description);
    var d := |name| + 1;
    var n := d + 2 + |token|;
    var e := n + 1 + |unit|;
    DashHead(line, name, first, token, unit, second, description);
    DashToken(line, name, first, token, unit, second, description, n);
    DashUnit(line, name, first, token, unit, second, description, n, e);
    DashDescription(line, name, first, token, unit, second, description, e);
    DashTailAt(line, d, n, e);
    NotNumbered(line);
    DashGroupsAt(line, d, n, e);
  }

  /**
   * `{name} - {points} {unit} - {description}` reads back as the criterion
   * of that name, description and exact points value, or as the error its
   * points or name call for.
   */
  lemma DashLineParses(name: string, first: char, token: string, unit: string, second: char, description: string,
                       lineNum: nat)
    requires DashParts(name, first, token, unit, second, description)
    ensures ReadsBack(ParseLine(DashText(name, first, token, unit, second, description), lineNum),
                      name, description, TokenValue(token), lineNum)
  {
    var line := DashText(name, first, token, unit, second, description);
    DashTry(name, first, token, unit, second, description);
    NotSkipped(line);
    var g := Groups(name, token, description);
    ParsedAsDash(line, lineNum, g);
    BuildMeaning(g, lineNum, false);
  }

  // ----------------------------------------------------- colon-separated lines

  /** `{name}: {points} {unit}{separators}{description}`. */
  function ColonText(name: string, token: string, unit: string, separator: string, description: string): string {
    (name + ": ") + (token + " " + unit + separator + description)
  }

  /** Only characters of the class `[,;:\s]`. */
  predicate AllSeparators(s: string) {
    SeparatorRun(s, 0) == |s|
  }

  /**
   * What the colon shape asks of its parts for the line to read back as
   * written: a name without a colon, separators that stop where the
   * description starts, and no dash anywhere, so that no dash line is seen.
   */
  predicate ColonParts(name: string, token: string, unit: string, separator: string, description: string) {
    && Field(name) && ':' !in name && NoDashChars(name) && !IsDigit(name[0]) && name[0] != '#' && name[0] != '|'
    && IsNumberToken(token) && IsUnitWord(unit)
    && separator != [] && AllSeparators(separator)
    && Field(description) && !IsSeparator(description[0]) && NoDashChars(description)
  }

  lemma ColonHeadPieces(name: string)
    ensures var h := name + ": ";
      && |h| == |name| + 2
      && h[0..|name|] == name && h[|name|] == ':' && h[|name| + 1] == ' '
  {
  }

  lemma ColonRestPieces(token: string, unit: string, separator: string, description: string)
    ensures var r := token + " " + unit + separator + description;
      var e := |token| + 1 + |unit|;
      && |r| == e + |separator| + |description|
      && r[0..|token|] == token && r[|token|] == ' '
      && r[|token| + 1..e] == unit && r[e..|r|] == separator + description
  {
  }

  /** Where the name, the colon, the points, the unit and what follows them stand in a colon line. */
  predicate ColonLaidOut(line: string, name: string, token: string, unit: string, separator: string, description: string) {
    var n := |name| + 2 + |token|;
    var e := n + 1 + |unit|;
    && |line| == e + |separator| + |description|
    && line[0..|name|] == name && line[|name|] == ':' && line[|name| + 1] == ' '
    && line[|name| + 2..n] == token && line[n] == ' '
    && line[n + 1..e] == unit && line[e..] == separator + description
  }

  lemma ColonLayout(line: string, name: string, token: string, unit: string, separator: string, description: string)
    requires line == ColonText(name, token, unit, separator, description)
    ensures ColonLaidOut(line, name, token, unit, separator, description)
  {
    var h := name + ": ";
    var r := token + " " + unit + separator + description;
    var n := |name| + 2 + |token|;
    var e := n + 1 + |unit|;
    ColonHeadPieces(name);
    ColonRestPieces(token, unit, separator, description);
    SliceOfAppend(h, r, 0, |name|);
    SliceOfAppend(h, r, |name| + 2, n);
    SliceOfAppend(h, r, n + 1, e);
    SliceOfAppend(h, r, e, |line|);
    assert line[e..] == line[e..|line|];
  }

  /** A run of separators copied into a line, followed by something else, is the run found there. */
  lemma {:induction false} SeparatorRunAcross(line: string, e: nat, separator: string, rest: string, i: nat)
    requires i <= |separator| && SeparatorRun(separator, i) == |separator| - i
    requires rest == [] || !IsSeparator(rest[0])
    requires e <= |line| && line[e..] == separator + rest
    ensures SeparatorRun(line, e + i) == |separator| - i
    decreases |separator| - i
  {
    if i < |separator| {
      assert line[e + i] == line[e..][i] == separator[i];
      SeparatorRunAcross(line, e, separator, rest, i + 1);
    } else if e + i < |line| {
      assert line[e + i] == line[e..][i] == rest[0];
    }
  }

  /** No character of a separator run is a dash. */
  lemma {:induction false} SeparatorsNoDash(s: string, i: nat)
    requires i <= |s| && SeparatorRun(s, i) == |s| - i
    ensures forall k :: i <= k < |s| ==> !IsDash(s[k])
    decreases |s| - i
  {
    if i < |s| {
      SeparatorsNoDash(s, i + 1);
    }
  }

  /** The description of a colon line starts right after its separators. */
  lemma SeparatedAt(line: string, e: nat, separator: string, description: string)
    requires separator != [] && AllSeparators(separator)
    requires description != [] && !IsSeparator(description[0])
    requires e <= |line| && line[e..] == separator + description
    ensures SeparatedRest(line, e) == Some(|separator|)
  {
    SeparatorRunAcross(line, e, separator, description, 0);
  }

  /** The head of the colon pattern when each of its runs is known. */
  lemma MatchColonHeadAt(line: string, c: nat, a: nat, n: nat, e: nat)
    requires IsStripped(line) && 0 < c && c + 1 < a < n && n + 1 < e <= |line|
    requires CharIndex(line, ':', 0) == c && SpaceRun(line, c + 1) == 1 && a == c + 2
    requires NumberEnd(line, a) == n && SpaceRun(line, n) == 1 && UnitEnd(line, n + 1, true) == e
    ensures MatchColonHead(line) == Some(Spans(0, c, a, n, e))
  {
  }

  lemma MatchColonAt(line: string, c: nat, a: nat, n: nat, e: nat, k: nat)
    requires IsStripped(line) && e <= |line|
    requires MatchColonHead(line) == Some(Spans(0, c, a, n, e))
    requires SeparatedRest(line, e) == Some(k)
    ensures MatchColon(line) == Some(Spans(0, c, a, n, e + k))
  {
  }

  /** A name without a colon ends at the first colon of the line. */
  lemma ColonHeadRuns(line: string, name: string)
    requires ':' !in name && |name| < |line|
    requires line[0..|name|] == name && line[|name|] == ':'
    ensures CharIndex(line, ':', 0) == |name|
  {
    forall k | 0 <= k < |name| ensures line[k] != ':' {
      assert line[k] == line[0..|name|][k];
    }
    CharIndexAt(line, ':', 0, |name|);
  }

  /** The runs of a colon line, found in place. */
  lemma ColonRuns(line: string, name: string, token: string, unit: string, separator: string, description: string,
                  n: nat, e: nat)
    requires ':' !in name && IsNumberToken(token) && IsUnitWord(unit)
    requires separator != [] && AllSeparators(separator)
    requires ColonLaidOut(line, name, token, unit, separator, description)
    requires n == |name| + 2 + |token| && e == n + 1 + |unit|
    ensures CharIndex(line, ':', 0) == |name| && SpaceRun(line, |name| + 1) == 1
    ensures NumberEnd(line, |name| + 2) == n && SpaceRun(line, n) == 1 && UnitEnd(line, n + 1, true) == e
    ensures e < |line| && line[e..] == separator + description
  {
    ColonHeadRuns(line, name);
    TokenRuns(line, token, |name| + 2, n);
    assert line[e] == line[e..][0] == separator[0];
    assert IsSeparator(separator[0]);
    UnitRuns(line, unit, n, e);
  }

  /** A colon line is stripped, and its name, token and description stand where the groups find them. */
  lemma ColonPieces(line: string, name: string, token: string, unit: string, separator: string, description: string,
                    n: nat, f: nat)
    requires Field(name) && Field(description)
    requires ColonLaidOut(line, name, token, unit, separator, description)
    requires n == |name| + 2 + |token| && f == n + 1 + |unit| + |separator|
    ensures IsStripped(line) && line[0] == name[0]
    ensures n < f < |line| && line[0..|name|] == name && line[|name| + 2..n] == token && line[f..] == description
  {
    assert line[f..] == (separator + description)[|separator|..] == description;
    assert line[0] == line[0..|name|][0];
    assert line[|line| - 1] == line[f..][|line| - 1 - f];
  }

  /** A unit word is made of letters. */
  lemma UnitWordNoDash(unit: string)
    requires IsUnitWord(unit)
    ensures NoDashChars(unit)
  {
    forall k | 0 <= k < |unit| ensures !IsDash(unit[k]) {
      assert Lower(unit)[k] == LowerChar(unit[k]);
    }
  }

  /** A number token is made of digits and one dot. */
  lemma TokenNoDash(token: string)
    requires IsNumberToken(token)
    ensures NoDashChars(token)
  {
    var i := CharIndex(token, '.', 0);
    forall k | 0 <= k < |token| ensures !IsDash(token[k]) {
      if k < i {
        assert token[k] == token[..i][k];
      } else if i < k {
        assert token[k] == token[i + 1..][k - i - 1];
      }
    }
  }

  lemma NoDashAppend(a: string, b: string)
    requires NoDashChars(a) && NoDashChars(b)
    ensures NoDashChars(a + b)
  {
    forall k | 0 <= k < |a + b| ensures !IsDash((a + b)[k]) {
      if k >= |a| {
        assert (a + b)[k] == b[k - |a|];
      }
    }
  }

  /** A colon line, its parts in place, has no dash anywhere. */
  lemma ColonNoDash(name: string, token: string, unit: string, separator: string, description: string)
    requires NoDashChars(name) && IsNumberToken(token) && IsUnitWord(unit)
    requires AllSeparators(separator) && NoDashChars(description)
    ensures NoDashChars(ColonText(name, token, unit, separator, description))
  {
    TokenNoDash(token);
    UnitWordNoDash(unit);
    SeparatorsNoDash(separator, 0);
    NoDashAppend(name, ": ");
    NoDashAppend(token, " ");
    NoDashAppend(token + " ", unit);
    NoDashAppend(token + " " + unit, separator);
    NoDashAppend(token + " " + unit + separator, description);
    NoDashAppend(name + ": ", token + " " + unit + separator + description);
  }

  /** A line without any dash is not a dash line. */
  lemma NotDash(line: string)
    requires IsStripped(line) && NoDashChars(line)
    ensures MatchDash(line) == None
  {
    if 1 <= |line| {
      forall k | 1 <= k < |line| ensures PassesDash(line, k) {
        assert !IsDash(line[k - 1]);
      }
      DashFromSkips(line, 1, |line|);
    }
  }

  /**
   * What the colon pattern needs to find `name`, `token` and `description`
   * in a line: each run where it ends, `k` separators after the unit word,
   * and the parts in place.
   */
  predicate ColonFound(line: string, name: string, token: string, description: string, n: nat, e: nat, k: nat) {
    && IsStripped(line) && |name| + 2 < n && n + 1 < e && e + k < |line|
    && CharIndex(line, ':', 0) == |name| && SpaceRun(line, |name| + 1) == 1
    && NumberEnd(line, |name| + 2) == n && SpaceRun(line, n) == 1 && UnitEnd(line, n + 1, true) == e
    && SeparatedRest(line, e) == Some(k)
    && Strip(line[0..|name|]) == name && line[|name| + 2..n] == token && Strip(line[e + k..]) == description
  }

  /** Stripped parts in place strip back to themselves. */
  lemma StrippedPieces(line: string, name: string, description: string, f: nat)
    requires IsStripped(name) && IsStripped(description)
    requires |name| <= |line| && f <= |line| && line[0..|name|] == name && line[f..] == description
    ensures Strip(line[0..|name|]) == name && Strip(line[f..]) == description
  {
    StripOfStripped(name);
    StripOfStripped(description);
  }

  /** A colon line, its parts in place, is where the colon pattern finds them. */
  lemma ColonFacts(line: string, name: string, token: string, unit: string, separator: string, description: string,
                   n: nat, e: nat)
    requires Field(name) && ':' !in name && IsNumberToken(token) && IsUnitWord(unit)
    requires separator != [] && AllSeparators(separator) && Field(description) && !IsSeparator(description[0])
    requires ColonLaidOut(line, name, token, unit, separator, description)
    requires n == |name| + 2 + |token| && e == n + 1 + |unit|
    ensures ColonFound(line, name, token, description, n, e, |separator|)
  {
    ColonRuns(line, name, token, unit, separator, description, n, e);
    SeparatedAt(line, e, separator, description);
    ColonPieces(line, name, token, unit, separator, description, n, e + |separator|);
    StrippedPieces(line, name, description, e + |separator|);
  }

  lemma ColonGroupsAt(line: string, c: nat, a: nat, n: nat, f: nat)
    requires IsStripped(line) && c <= |line| && a <= n <= |line| && f <= |line|
    requires MatchColon(line) == Some(Spans(0, c, a, n, f))
    ensures ColonGroups(line) == Some(Groups(Strip(line[0..c]), line[a..n], Strip(line[f..])))
  {
  }

  /** The colon pattern finds in a line the groups it is found to have. */
  lemma ColonFoundGroups(line: string, name: string, token: string, description: string, n: nat, e: nat, k: nat)
    requires 0 < |name| && ColonFound(line, name, token, description, n, e, k)
    ensures ColonGroups(line) == Some(Groups(name, token, description))
  {
    MatchColonHeadAt(line, |name|, |name| + 2, n, e);
    MatchColonAt(line, |name|, |name| + 2, n, e, k);
    ColonGroupsAt(line, |name|, |name| + 2, n, e + k);
  }

  /** A colon line, its parts in place, is matched neither by the numbered nor by the dash pattern. */
  lemma ColonOnly(line: string, name: string, token: string, unit: string, separator: string, description: string)
    requires Field(name) && NoDashChars(name) && !IsDigit(name[0]) && Field(description) && NoDashChars(description)
    requires IsNumberToken(token) && IsUnitWord(unit) && AllSeparators(separator)
    requires line == ColonText(name, token, unit, separator, description)
    ensures IsStripped(line) && line[0] == name[0]
    ensures NumberedGroups(line) == None && DashGroups(line) == None
  {
    ColonLayout(line, name, token, unit, separator, description);
    ColonPieces(line, name, token, unit, separator, description, |name| + 2 + |token|, |name| + 3 + |token| + |unit| + |separator|);
    ColonNoDash(name, token, unit, separator, description);
    NotDash(line);
    NotNumbered(line);
  }

  /** A colon line, its parts in place, is matched by the colon pattern only, each part as its own group. */
  lemma ColonTry(name: string, token: string, unit: string, separator: string, description: string)
    requires ColonParts(name, token, unit, separator, description)
    ensures var line := ColonText(name, token, unit, separator, description);
      && IsStripped(line) && line[0] == name[0]
      && NumberedGroups(line) == None && DashGroups(line) == None
      && ColonGroups(line) == Some(Groups(name, token, description))
  {
    var line := ColonText(name, token, unit, separator, description);
    var n := |name| + 2 + |token|;
    var e := n + 1 + |unit|;
    ColonLayout(line, name, token, unit, separator, description);
    ColonFacts(line, name, token, unit, separator, description, n, e);
    ColonFoundGroups(line, name, token, description, n, e, |separator|);
    ColonOnly(line, name, token, unit, separator, description);
  }

  /**
   * `{name}: {points} {unit}, {description}` reads back as the criterion
   * of that name, description and exact points value, or as the error its
   * points or name call for.
   */
  lemma ColonLineParses(name: string, token: string, unit: string, separator: string, description: string,
                        lineNum: nat)
    requires ColonParts(name, token, unit, separator, description)
    ensures ReadsBack(ParseLine(ColonText(name, token, unit, separator, description), lineNum),
                      name, description, TokenValue(token), lineNum)
  {
    var line := ColonText(name, token, unit, separator, description);
    ColonTry(name, token, unit, separator, description);
    NotSkipped(line);
    var g := Groups(name, token, description);
    ParsedAsColon(line, lineNum, g);
    BuildMeaning(g, lineNum, false);
  }

  // ---------------------------------------------------------------- example

  /** `Style – 5 PTS – Consistent tone` on line 4: en dashes, and the unit in capitals. */
  lemma StyleLine()
    ensures ParseLine(DashText("Style", '\U{2013}', "5", "PTS", '\U{2013}', "Consistent tone"), 4)
         == Parsed(Criterion("Style", "Consistent tone", 5.0, true))
  {
    NatTokenValue(5);
    assert NatText(5) == "5";
    assert IsUnitWord("PTS");
    DashLineParses("Style", '\U{2013}', "5", "PTS", '\U{2013}', "Consistent tone", 4);
  }
}
