/** The driver that tries every line of the rule list, with a matcher of the user's choice. */
module MatchList {
  import opened Bytes
  import opened PrefixAutomaton
  import opened BadCharacter
  import opened RabinKarp

  const LINE_CAP: nat := 2048

  /** The non-empty lines of a rule list, as `strtok` with "\n" yields them. */
  function Lines(config: bytes): seq<bytes>
    decreases |config|
  {
    if config == [] then []
    else if config[0] == '\n' then Lines(config[1..])
    else
      var n := IndexOf(config, '\n');
      [config[..n]] + Lines(config[n..])
  }

  /** The pattern a line stands for: its first 2048 bytes without the last two of them. */
  function Pattern(line: bytes): bytes {
    var len := if |line| < LINE_CAP then |line| else LINE_CAP;
    if len > 4 then line[..len - 2] else []
  }

  /** The regular expression engine: whether an expression matches a text. */
  type Engine = (bytes, bytes) -> bool

  /** The two rule lists, of patterns and of regular expressions. */
  datatype Rules = Rules(patterns: bytes, expressions: bytes) {
    function Chosen(option: int): bytes { if option == 4 then expressions else patterns }
  }

  /** The line is long enough to be a rule. It is an expression that matches the text, or its
      pattern occurs in the text, whichever of the three matchers is asked. */
  predicate RuleMatches(engine: Engine, option: int, line: bytes, text: bytes) {
    |line| > 4 && if option == 4 then engine(line, text) else 1 <= option <= 3 && Occurs(Pattern(line), text)
  }

  ghost predicate SomeRuleMatches(engine: Engine, option: int, config: bytes, text: bytes) {
    exists i :: 0 <= i < |Lines(config)| && RuleMatches(engine, option, Lines(config)[i], text)
  }

  /** config[i..j] is a non-empty stretch without newlines that cannot be made longer. */
  predicate IsStretch(config: bytes, i: nat, j: nat) {
    && i < j <= |config| && (forall k :: i <= k < j ==> config[k] != '\n')
    && (i == 0 || config[i - 1] == '\n')
    && (j == |config| || config[j] == '\n')
  }

  ghost predicate IsLine(config: bytes, line: bytes) {
    exists i: nat, j: nat :: IsStretch(config, i, j) && config[i..j] == line
  }

  /** The first d bytes are a newline, or the first line. */
  predicate IsHead(config: bytes, d: nat) {
    && 0 < d <= |config|
    && if config[0] == '\n' then d == 1 else IsStretch(config, 0, d)
  }

  lemma NoLines(line: bytes)
    ensures !IsLine([], line)
  {
  }

  lemma StretchOfRest(config: bytes, d: nat, i: nat, j: nat)
    requires IsHead(config, d) && IsStretch(config[d..], i, j)
    ensures IsStretch(config, d + i, d + j) && config[d + i..d + j] == config[d..][i..j]
  {
    var rest := config[d..];
    assert forall k {:trigger rest[k]} :: 0 <= k < |rest| ==> rest[k] == config[d + k];
    forall k | d + i <= k < d + j ensures config[k] != '\n' { assert rest[k - d] == config[k]; }
  }

  lemma StretchSplits(config: bytes, d: nat, i: nat, j: nat)
    requires IsHead(config, d) && IsStretch(config, i, j)
    ensures if i < d then i == 0 && j == d && config[0] != '\n'
            else IsStretch(config[d..], i - d, j - d) && config[d..][i - d..j - d] == config[i..j]
  {
    if i >= d {
      var rest := config[d..];
      forall k | i - d <= k < j - d ensures rest[k] != '\n' { assert rest[k] == config[k + d]; }
      assert rest[i - d..j - d] == config[i..j];
    }
  }

  /** Beyond a newline, or beyond the first line, a list has the stretches of its rest. */
  lemma StretchesBehind(config: bytes, d: nat, line: bytes)
    requires IsHead(config, d)
    ensures IsLine(config, line) <==>
      IsLine(config[d..], line) || (config[0] != '\n' && line == config[..d])
  {
    var rest := config[d..];
    if IsLine(rest, line) {
      var i: nat, j: nat :| IsStretch(rest, i, j) && rest[i..j] == line;
      StretchOfRest(config, d, i, j);
    }
    if IsLine(config, line) {
      var i: nat, j: nat :| IsStretch(config, i, j) && config[i..j] == line;
      StretchSplits(config, d, i, j);
    }
    assert config[0..d] == config[..d];
  }

  /** The lines of a rule list are exactly its longest stretches without newlines. */
  lemma {:induction false} LinesAreStretches(config: bytes, line: bytes)
    ensures line in Lines(config) <==> IsLine(config, line)
    decreases |config|
  {
    hide IsLine, IndexOf;
    if config == [] {
      NoLines(line);
    } else {
      var n := IndexOf(config, '\n');
      var d := if n == 0 then 1 else n;
      assert IsHead(config, d);
      LinesAreStretches(config[d..], line);
      StretchesBehind(config, d, line);
    }
  }

  /** `strtok`: the next token of the buffer at or after `from`; start == |config| if none. */
  method StrTok(config: bytes, from: nat) returns (start: nat, end: nat)
    requires from <= |config|
    ensures from <= start <= end <= |config| && (start < |config| ==> start < end)
    ensures start == |config| ==> Lines(config[from..]) == []
    ensures start < |config| ==> Lines(config[from..]) == [config[start..end]] + Lines(config[end..])
  {
    start := from;
    while start < |config| && config[start] == '\n'
      invariant from <= start <= |config|
      invariant Lines(config[from..]) == Lines(config[start..])
    {
      assert config[start..][1..] == config[start + 1..];
      start := start + 1;
    }
    end := MemChr(config, start, '\n');
    if start < |config| {
      assert config[start..][..end - start] == config[start..end];
      assert config[start..][end - start..] == config[end..];
    }
  }

  lemma NothingInEmpty(pat: bytes, t: bytes)
    requires pat != []
    ensures t == [] ==> !Occurs(pat, t)
  {
  }

  /** One rule line against the text, with the chosen matcher. */
  method RunMatcher(option: int, pat: bytes, buffer: bytes, len: nat) returns (found: bool)
    requires len <= |buffer| && pat != []
    requires option == 3 ==> len < |buffer| && |pat| <= |buffer|
    requires option == 1 || option == 2 ==> SevenBit(pat) && SevenBit(buffer[..len])
    ensures found == (1 <= option <= 3 && Occurs(pat, buffer[..len]))
  {
    hide Occurs;
    match option
    case 1 =>
      found := DfaSearch(pat, buffer[..len]);
      NothingInEmpty(pat, buffer[..len]);
    case 2 => found := BadCharSearch(buffer[..len], pat);
    case 3 => found := RollingSearch(buffer, len, pat);
    case _ => found := false;
  }

  lemma SevenBitSlice(s: bytes, lo: nat, hi: nat)
    requires lo <= hi <= |s|
    ensures SevenBit(s) ==> SevenBit(s[lo..hi])
  {
  }

  /** One line of the rule list: lines of up to four bytes are no rules. */
  method TryLine(engine: Engine, line: bytes, buffer: bytes, len: nat, option: int) returns (found: bool)
    requires len <= |buffer|
    requires option == 3 ==> len < |buffer| && |Pattern(line)| <= |buffer|
    requires option == 1 || option == 2 ==> SevenBit(line) && SevenBit(buffer[..len])
    ensures found == RuleMatches(engine, option, line, buffer[..len])
  {
    hide Occurs;
    var lineLen := if |line| < LINE_CAP then |line| else LINE_CAP;
    found := false;
    if lineLen > 4 {
      if option == 4 {
        found := engine(line, buffer[..len]);
      } else {
        found := RunMatcher(option, line[..lineLen - 2], buffer, len);
      }
    }
  }

  /** `matchlist` on the first len bytes of a buffer. The three matchers agree: the answer is
      whether some rule matches. The automaton and the bad-character table are indexed by
      signed characters, so they need 7-bit data; the rolling hash reads the terminator at len
      and, before it looks at len, as many bytes as the pattern has. */
  method MatchRules(engine: Engine, rules: Rules, buffer: bytes, len: nat, option: int) returns (found: bool)
    requires len <= |buffer|
    requires option == 1 || option == 2 ==> SevenBit(rules.patterns) && SevenBit(buffer[..len])
    requires option == 3 ==> len < |buffer| && forall i ::
      0 <= i < |Lines(rules.patterns)| ==> |Pattern(Lines(rules.patterns)[i])| <= |buffer|
    ensures found == SomeRuleMatches(engine, option, rules.Chosen(option), buffer[..len])
  {
    hide Occurs, Pattern, IndexOf, RuleMatches;
    ghost var text := buffer[..len];
    var config := rules.Chosen(option);
    found := false;
    var start, end := StrTok(config, 0);
    assert config[0..] == config;
    ghost var done: nat := 0;
    while start < |config| && !found
      invariant 0 <= start <= end <= |config| && (start < |config| ==> start < end)
      invariant done <= |Lines(config)|
      invariant start < |config| ==> Lines(config)[done..] == [config[start..end]] + Lines(config[end..])
      invariant start == |config| ==> done == |Lines(config)|
      invariant !found ==> forall i :: 0 <= i < done ==> !RuleMatches(engine, option, Lines(config)[i], text)
      invariant found ==> SomeRuleMatches(engine, option, config, text)
      decreases |config| - start, !found
    {
      var line := config[start..end];
      assert line == Lines(config)[done..][0] == Lines(config)[done];
      assert Lines(config)[done + 1..] == Lines(config)[done..][1..] == Lines(config[end..]);
      SevenBitSlice(config, start, end);
      found := TryLine(engine, line, buffer, len, option);
      done := done + 1;
      start, end := StrTok(config, end);
    }
  }

  ghost predicate StandsIn(needle: bytes, text: bytes) { exists k: nat :: OccursAt(needle, text, k) }

  /** What a line asks of the text: the engine for option 4; for the others that the line
      without the last two of its first 2048 bytes stands somewhere in the text. */
  ghost predicate Asks(engine: Engine, option: int, line: bytes, text: bytes) {
    && |line| > 4
    && (option == 4 ==> engine(line, text))
    && (option != 4 ==> 1 <= option <= 3 && StandsIn(line[..(if |line| < 2048 then |line| else 2048) - 2], text))
  }

  lemma StandsMeansOccurs(needle: bytes, text: bytes)
    ensures StandsIn(needle, text) <==> Occurs(needle, text)
  {
    if k: nat :| OccursAt(needle, text, k) { assert k <= |text|; }
  }

  lemma AsksIs(engine: Engine, option: int, line: bytes, text: bytes)
    ensures Asks(engine, option, line, text) <==> RuleMatches(engine, option, line, text)
  {
    if |line| > 4 { StandsMeansOccurs(Pattern(line), text); }
  }

  /** The stretch from i to j matches. */
  ghost predicate StretchAsks(engine: Engine, option: int, config: bytes, i: nat, j: nat, text: bytes) {
    i < j <= |config| && IsStretch(config, i, j) && Asks(engine, option, config[i..j], text)
  }

  /** A rule list matches if one of its stretches without newlines does. */
  lemma RulesMean(engine: Engine, option: int, config: bytes, text: bytes)
    ensures SomeRuleMatches(engine, option, config, text) <==>
      exists i: nat, j: nat :: StretchAsks(engine, option, config, i, j, text)
  {
    hide Asks, RuleMatches, Lines;
    if i :| 0 <= i < |Lines(config)| && RuleMatches(engine, option, Lines(config)[i], text) {
      LinesAreStretches(config, Lines(config)[i]);
      AsksIs(engine, option, Lines(config)[i], text);
      var j: nat, k: nat :| IsStretch(config, j, k) && config[j..k] == Lines(config)[i];
      assert StretchAsks(engine, option, config, j, k, text);
    }
    if i: nat, j: nat :| StretchAsks(engine, option, config, i, j, text) {
      assert IsLine(config, config[i..j]);
      LinesAreStretches(config, config[i..j]);
      AsksIs(engine, option, config[i..j], text);
    }
  }

  /** A list of one line, whose last two bytes are cut off, be they a line end or not. */
  lemma OneLine(engine: Engine, option: int, w: bytes, a: byte, b: byte, text: bytes)
    requires 1 <= option <= 3 && 3 <= |w| <= 2046 && '\n' !in w + [a, b]
    ensures SomeRuleMatches(engine, option, w + [a, b], text) <==> StandsIn(w, text)
  {
    hide SomeRuleMatches, StandsIn;
    var line := w + [a, b];
    RulesMean(engine, option, line, text);
    assert line[..|line| - 2] == w && line[0..|line|] == line;
    assert IsStretch(line, 0, |line|);
    if StandsIn(w, text) { assert StretchAsks(engine, option, line, 0, |line|, text); }
  }
}
