# Verification model of OctopusWAF

OctopusWAF is a reverse proxy that inspects requests and blocks those that look like attacks.
This project models the parts of it in which the logic is hardest and proves what they promise:

* **The SQL injection detector** (`src/libinjection_sqli.c`). A scanner turns the input into
  tokens, a folder rewrites a window of eight tokens until at most five are left, their types
  form a fingerprint, and a table of fingerprints together with a filter for false positives
  gives the verdict. An input is tried in up to five contexts.
* **The string matchers and the rule list** (`src/match_algorithms.c`, `src/matchlist.c`), with
  the text routines around them (`src/utils.c`, `src/strsec.c`).
* **The proxy callbacks** (`src/proxy.c`) as a state machine driven by the event library.

`dafny verify dfyconfig.toml` checks everything.

## How the model is built

Every routine that changes state or loops in the program is a method that does the same in the
same order, on absolute positions, and is proved equal to a function on values. The theorems are
about those functions. The modules whose names end in `Laws`, and `FoldStream`, say what these
functions compute without them, over the bytes of the input, the tokens read, the row of tokens
held, or the step made, with types and marks written out as characters. For the scanner the functions see only the input from the current byte
on; that is what makes the two comparisons of runs below possible.

| files | what they hold |
|---|---|
| `Bytes`, `Tokens`, `Keywords` | byte strings and searches, tokens, the keyword table |
| `Scanners`, `ScannerFacts`, `QuoteSearch`, `Tokenizer` | the 22 scanners and the token stream |
| `ScannerLaws`, `StringLaws`, `WordLaws`, `NumberLaws`, `TokenLaws` | what is read of every kind of input |
| `FoldRules`, `Fold`, `FoldRun`, `FoldFacts` | the folding rules, one round, termination, invariants |
| `FoldLaws`, `FoldStream` | what each round does to the held tokens; folding against the tokens read |
| `Verdict`, `Dialects`, `FilterLaws` | fingerprint, filter, contexts; ANSI against MySQL passes; the verdict case by case |
| `QuoteContext`, `QuoteVerdict`, `QuoteExample`, `SlipExample` | quoted contexts against a leading quote |
| `Engine` | the detector as a mutable class, proved against all of the above |
| `PrefixAutomaton`, `BadCharacter`, `RabinKarp`, `MatchList` | the matchers and the driver |
| `UrlDecode`, `StrnStr` | the text routines |
| `ProxyNet`, `ProxyRuns`, `ProxyServer` | the proxy: states and steps, runs, callbacks |

## Main results

* Folding ends on every input and for every dictionary, within a number of rounds linear in the
  input, although rules retype tokens back and forth (`FoldRun.StepInv`, `FoldRun.FoldingIsLinear`).
* What each scanner takes of the input is told for every byte it can be called on, strings as
  lists of escaped, doubled and plain bytes (`ScannerLaws` to `TokenLaws`).
* What each round of folding makes of the held tokens is told by the type of the token under the
  cursor (`FoldLaws`); what it reads, where it starts, and that a comment read last is returned
  and no other one is, over the stream of tokens (`FoldStream.FoldEndsWell`).
* Skipping the MySQL pass when the ANSI pass met no hash sign and no bare double dash changes
  nothing, so the staged, stateful `libinjection_is_sqli` answers whether some context that applies
  to the input detects an attack (`Dialects.FoldTwins`, `Verdict.ReparseLosesNothing`,
  `Engine.Sqli.DetectSqli`); and what one context detects is told by fingerprint over the tokens
  of the input (`FilterLaws`).
* A quoted context reads the tokens of the quote written in front of the input exactly when the
  scanner comes to no dollar-quoted string that slips (`QuoteContext.TokensShift`), and then it
  yields the same fingerprint (`QuoteVerdict.QuoteSimulation`). The comment in the source claims
  the same of the verdict; that is false, and `QuoteVerdict.QuoteVerdicts` says on which of
  these inputs exactly.
* The false-positive filter indexes the input by a token's length instead of its position and
  still never reads outside it (`Verdict.FilterReadsInside`).
* The three matchers decide the same thing, and the rule list driver with them, which asks any
  regular expression engine in their place when told to (`MatchList.MatchRules`).
* In every run of the proxy, contexts point at live partners that point back, a connection is
  not reading exactly when it was blocked, is closing or is throttled, blocked connections stay
  blocked, no wake-up is lost, and no byte is lost, reordered or let past the filter, also
  when one side hangs up and the other has output left; and exactly those who are blocked are
  answered with the block page, once (`ProxyRuns`).

## Where the code and its comments differ

* `libinjection_is_sqli` (lines 2272-2280) describes the quoted contexts as the same as a check
  of the input with the quote in front. The fingerprints agree unless the scanner comes to a
  dollar-quoted string that slips (next item), but for the fingerprints `sos` and `s&s` the filter asks whether the first
  string was opened by a real quote: `QuoteExample.LeadingQuoteHidesAttack` gives inputs on
  which the verdicts differ.
* `parse_money` (line 1069) looks for the closing tag of `$tag$` from a fixed index and stops as
  many bytes before the end as the string starts behind the beginning. `QuoteContext.TagShift`
  says exactly when this makes the token depend on where the string stands, and
  `SlipExample.SlipsMayMatter` gives an input on which the fingerprint changes and one on which
  it does not.
* `eventcb` keeps a half-closed connection until its output is sent, but an end of file or error
  on that connection itself frees it at once, with what is left unsent; this is the only case
  `ProxyRuns.ClosingLosesNothing` leaves out.
* `horspool_search` shifts by the bad-character rule at the mismatch, not by the rule its
  comment names. The shifts are safe all the same.

## Model

| member | source | states |
|---|---|---|
| Bytes.MemChr2 | src/libinjection_sqli.c:104-123 | finds the first place where the two bytes stand side by side, or the end |
| Bytes.MemMem | src/libinjection_sqli.c:128-143 | finds the first occurrence of the needle at or after the start, or reports none |
| Bytes.StrLenSpn | src/libinjection_sqli.c:157-170 | length of the longest accepted prefix; the terminator of the accept string counts as accepted |
| Bytes.StrLenCSpn | src/libinjection_sqli.c:172-185 | length of the longest prefix without a stop byte, NUL included among the stops |
| Keywords.CStrCaseCmp | src/libinjection_sqli.c:211-228 | the signed-character comparison value for any key, also with NUL and high-bit bytes |
| Keywords.CompareZero | src/libinjection_sqli.c:211-228 | the comparison is 0 exactly when the word is the ASCII-uppercased key |
| Keywords.CompareMonotone | src/libinjection_sqli.c:211-228 | along the sorted table the sign only grows, for every key, so binary search is sound |
| Keywords.DictionaryMeans | src/libinjection_sqli.c:1966-1974 | a word or operator has the type of the table's entry that is it in upper case, and none without one |
| Keywords.BsearchKeywordType | src/libinjection_sqli.c:249-271 | returns the type of the entry equal to the uppercased key, NUL if there is none |
| ScannerLaws.BlanksAreSkipped | src/libinjection_sqli.c:352-355 | control characters, the space, DEL and the no-break space yield no token |
| ScannerLaws.SingleBytes | src/libinjection_sqli.c:357-382 | brackets, comma, semicolon and single-byte operators are tokens by themselves |
| ScannerLaws.Operators | src/libinjection_sqli.c:557-600 | operators of three bytes, of two from the dictionary, of one; the colon |
| ScannerLaws.Hashes | src/libinjection_sqli.c:404-414 | a comment to the end of the line in one dialect, an operator in the other, and what is counted |
| ScannerLaws.Dashes | src/libinjection_sqli.c:416-445 | when two dashes start a comment, and when that is counted |
| ScannerLaws.Comments | src/libinjection_sqli.c:488-536 | a comment to its first end mark; when it is evil |
| ScannerLaws.Divisions | src/libinjection_sqli.c:488-500 | a slash without a star is an operator |
| ScannerLaws.Backslashes | src/libinjection_sqli.c:539-555 | the \N literal and the lone backslash |
| StringLaws.TextCloses | src/libinjection_sqli.c:633-687 | the closing quote is where the list of escaped, doubled and plain bytes ends |
| StringLaws.EveryText | src/libinjection_sqli.c:633-687 | every body starts with such a list |
| StringLaws.Strings | src/libinjection_sqli.c:692-702 | a quoted string, closed or not, with its marks |
| StringLaws.SimulatedString | src/libinjection_sqli.c:1220-1229 | the first token in a quoted context, without an opening mark |
| StringLaws.LetterStrings | src/libinjection_sqli.c:709-719 | strings behind e and n |
| StringLaws.UnicodeStrings | src/libinjection_sqli.c:721-738 | strings behind u&, with their own marks |
| StringLaws.BracketStrings | src/libinjection_sqli.c:740-810 | strings behind q and nq, to the closing bracket |
| StringLaws.DigitStrings | src/libinjection_sqli.c:816-866 | quoted binary and hex digits are numbers |
| StringLaws.BackquotedNames | src/libinjection_sqli.c:937-961 | names in backquotes, functions if the dictionary says so |
| StringLaws.QuotedVariables | src/libinjection_sqli.c:963-1001 | variables with a quoted name, with the number of at-signs |
| WordLaws.Words | src/libinjection_sqli.c:887-931 | a word to its end, or to the first dot or backquote behind a word of the dictionary |
| WordLaws.SpecialWordsEnd | src/libinjection_sqli.c:902-917 | a dot or backquote behind a word of the dictionary ends that word, whatever follows |
| WordLaws.BracketWords | src/libinjection_sqli.c:873-885 | a word in brackets |
| WordLaws.Variables | src/libinjection_sqli.c:963-1013 | plain variables |
| WordLaws.Amounts | src/libinjection_sqli.c:1028-1091 | a dollar sign with an amount |
| WordLaws.DollarStrings | src/libinjection_sqli.c:1036-1051 | strings in double dollar signs |
| WordLaws.TaggedStrings | src/libinjection_sqli.c:1053-1085 | tagged strings, with the place the program finds their end |
| WordLaws.LoneDollars | src/libinjection_sqli.c:1023-1066 | any other dollar sign |
| NumberLaws.RadixNumbers | src/libinjection_sqli.c:1109-1126 | hex and binary numbers |
| NumberLaws.Dots | src/libinjection_sqli.c:1133-1143 | the lone dot |
| NumberLaws.Decimals | src/libinjection_sqli.c:1128-1193 | decimal numbers with exponent and suffix |
| TokenLaws.NextReads | src/libinjection_sqli.c:1231-1256 | the next token is what the scanner reads at the next byte that yields one; only blanks are passed over |
| QuoteSearch.IsBackslashEscaped | src/libinjection_sqli.c:607-618 | true exactly when an odd run of backslashes, not reaching before the string, ends here |
| QuoteSearch.ReadStretch | src/libinjection_sqli.c:602-618 | over a stretch without quotes a left-to-right reader is inside an escape exactly when the backslash run is odd |
| QuoteSearch.QuoteDecides | src/libinjection_sqli.c:658-686 | looking back from a quote takes the same decision as reading from the left: escaped, doubled, or closing |
| QuoteSearch.FindClosingQuote | src/libinjection_sqli.c:633-687 | the jump-and-look-back loop ends inside the input at the quote a one-pass reader with an escape flag finds |
| ScannerFacts.WordDispatch | src/headers/libinjection_sqli_data.h:38-295 | every byte dispatched to a scanner that falls back on parse_word can start a word, so parse_word always advances |
| ScannerFacts.ScanSound | src/libinjection_sqli.c:352-1193 | every scanner called inside the input consumes at least one byte, stays inside, yields a typed token (or skips white space), and the token's value is the input at its position |
| Tokenizer.NextToken | src/libinjection_sqli.c:1205-1257 | the next token lies behind the cursor, in the part consumed, with a type; otherwise the input is used up and no counter changed |
| Tokenizer.TokensTileTheInput | src/libinjection_sqli.c:1205-1257 | the tokens of a pass lie in the input in order and without overlap, each with a type and a value equal to the input there, cut to the buffer |
| Fold.PairRuleShape | src/libinjection_sqli.c:1486-1687 | how many tokens a two-token rule drops, and that only the brace rule gives up |
| Fold.TripleRuleShape | src/libinjection_sqli.c:1715-1861 | a three-token rule either drops up to three tokens and restarts, or drops none and moves on |
| Fold.FillFacts | src/libinjection_sqli.c:1463-1474 | the token loops keep the held tokens, stop with enough tokens, at the end of input, or with the window full, and lower the potential when they read |
| FoldRun.PairRuleSettles | src/libinjection_sqli.c:1522-1635 | a two-token rule that drops nothing either walks down the type scale or uses up an unsettled token |
| FoldRun.StepInv | src/libinjection_sqli.c:1408-1870 | every round keeps left <= pos <= 6 and lowers the rank, so folding ends for every dictionary |
| FoldRun.FoldingIsLinear | src/libinjection_sqli.c:1371-1889 | the number of rounds is at most a constant times the input length plus one |
| FoldFacts.ScanComment | src/libinjection_sqli.c:416-536 | a comment token that starts with a dash or a slash has the second byte of a comment mark |
| FoldFacts.StepHeld | src/libinjection_sqli.c:1408-1870 | held tokens have types, held tokens and the pending comment never exceed the tokens read, and while none is missing they are the ones read |
| FoldFacts.FoldAllFolded | src/libinjection_sqli.c:1371-1889 | folding returns at most five typed tokens, or six with the last one evil, never more than were read |
| FoldLaws.FiveTokens | src/libinjection_sqli.c:1414-1455 | which five types fold to the first, and what a sixth does then |
| FoldLaws.Ends | src/libinjection_sqli.c:1457-1888 | when the loop ends and what it returns, the pending comment included |
| FoldLaws.AfterString | src/libinjection_sqli.c:1486-1489 | two tokens, a string first |
| FoldLaws.AfterSemicolon | src/libinjection_sqli.c:1490-1534 | two tokens, a semicolon first |
| FoldLaws.AfterOperator | src/libinjection_sqli.c:1499-1600 | two tokens, an operator first |
| FoldLaws.AfterLogicOperator | src/libinjection_sqli.c:1499-1506 | two tokens, a logic operator first |
| FoldLaws.AfterOpening | src/libinjection_sqli.c:1507-1641 | two tokens, an opening parenthesis first |
| FoldLaws.AfterClosing | src/libinjection_sqli.c:1642-1647 | two tokens, a closing parenthesis first |
| FoldLaws.AfterKeyword | src/libinjection_sqli.c:1564-1591 | two tokens, a keyword first |
| FoldLaws.AfterName | src/libinjection_sqli.c:1535-1563 | two tokens, a name or variable first |
| FoldLaws.AfterWord | src/libinjection_sqli.c:1315-1369 | two tokens, another word first: phrases |
| FoldLaws.AfterType | src/libinjection_sqli.c:1601-1613 | two tokens, a type name first |
| FoldLaws.AfterCollate | src/libinjection_sqli.c:1614-1623 | two tokens, a collation first |
| FoldLaws.AfterBackslash | src/libinjection_sqli.c:1624-1635 | two tokens, a backslash first |
| FoldLaws.AfterBrace | src/libinjection_sqli.c:1648-1681 | two tokens, an opening brace first |
| FoldLaws.AfterOthers | src/libinjection_sqli.c:1682-1687 | two tokens, anything else first |
| FoldLaws.OperandFirst | src/libinjection_sqli.c:1715-1839 | three tokens, an operand first |
| FoldLaws.OperatorFirst | src/libinjection_sqli.c:1721-1731 | three tokens, an operator first |
| FoldLaws.KeywordFirst | src/libinjection_sqli.c:1771-1847 | three tokens, a keyword, expression or group first |
| FoldLaws.CommaFirst | src/libinjection_sqli.c:1771-1829 | three tokens, a comma first |
| FoldLaws.FunctionFirst | src/libinjection_sqli.c:1848-1861 | three tokens, a function first |
| FoldStream.FoldStarts | src/libinjection_sqli.c:1386-1406 | folding starts with the first token that is no comment, parenthesis, type name or sign; without one it returns nothing |
| FoldStream.FillReads | src/libinjection_sqli.c:1463-1474 | the token loops read just so many tokens that enough are held, comments not counted, or to the end |
| FoldStream.FoldEndsWell | src/libinjection_sqli.c:1371-1889 | a comment read last is the last token returned unless five others are; with a dictionary that has no words of the type of comments no other comment is returned; all was read unless five tokens or an evil one are returned |
| Dialects.ScanTwins | src/libinjection_sqli.c:404-445 | a scanner call that touches no comment counter is the same in both dialects |
| Dialects.StepTwins | src/libinjection_sqli.c:1408-1870 | counters only grow over a round, and a round that leaves them alone is the same in both dialects |
| Dialects.FoldTwins | src/libinjection_sqli.c:1371-1889 | a fold that leaves both comment counters alone is the same in both dialects, tokens and counters included |
| Verdict.FingerprintShape | src/libinjection_sqli.c:1901-1958 | a fingerprint is exactly "X" or at most five types none of which is NUL or X |
| Verdict.FilterReadsInside | src/libinjection_sqli.c:2118-2146 | both reads behind a number token are inside the input, on every pass |
| Verdict.ReparseLosesNothing | src/libinjection_sqli.c:2227-2271 | if an ANSI pass asks for no reparse, the MySQL pass would end in the same state |
| Verdict.EmptyIsHarmless | src/libinjection_sqli.c:2250-2255 | no context detects anything in an empty input |
| FilterLaws.FingerprintReads | src/libinjection_sqli.c:1901-1958 | the types folding returns, a disguised comment unmasked, or "X" if one is evil |
| FilterLaws.KnownFingerprints | src/libinjection_sqli.c:1976-2024 | known means: in the table with a 0 in front, in upper case, as type F |
| FilterLaws.AllCounted | src/libinjection_sqli.c:1371-1889 | for fingerprints of up to four types the token counter is the number of tokens in the input |
| FilterLaws.PasswordCounts | src/libinjection_sqli.c:2039-2052 | with a comment at the end and sp_password anywhere, what is known is an attack |
| FilterLaws.OtherLengths | src/libinjection_sqli.c:2213-2220 | one, four or five types: what is known is an attack |
| FilterLaws.EndsInUnion | src/libinjection_sqli.c:2061-2077 | a token and UNION, harmless exactly if these two are the whole input |
| FilterLaws.NameAndComment | src/libinjection_sqli.c:2081-2096 | a name and a comment |
| FilterLaws.NumberAndComment | src/libinjection_sqli.c:2081-2146 | a number and a comment |
| FilterLaws.OtherPairs | src/libinjection_sqli.c:2148-2158 | any other two tokens |
| FilterLaws.StringsAround | src/libinjection_sqli.c:2167-2188 | two strings around an operator |
| FilterLaws.OperandsAround | src/libinjection_sqli.c:2189-2200 | two operands around a logic operator, harmless exactly if these three are the whole input |
| FilterLaws.OtherTriples | src/libinjection_sqli.c:2201-2210 | any other three tokens |
| FilterLaws.ContextsTried | src/libinjection_sqli.c:2257-2305 | the contexts tried are those of one dialect whose quote occurs in the input, behind a double quote MySQL alone |
| QuoteContext.TagShift | src/libinjection_sqli.c:1062-1085 | a tagged string yields the same token one byte further on exactly when its opening tag stays outside the searched part and its closing tag inside |
| QuoteContext.SlipsOpen | src/libinjection_sqli.c:1062-1085 | one byte further on, a tagged string that slips stays open and takes the rest of the input |
| QuoteContext.ScanShift | src/libinjection_sqli.c:352-1193 | every scanner call yields the same token one byte further on exactly when it reads no tagged string that slips |
| QuoteContext.NothingSlips | src/libinjection_sqli.c:1015-1093 | if no tag anywhere in the input slips, the scanner comes to none |
| QuoteContext.TokensShift | src/libinjection_sqli.c:1220-1256 | the tokens of a quoted context are those of the quote and the input, one byte further on, but for the first opening mark, exactly when the scanner comes to no slipping tag; if it does, they agree up to that token, which is the last with the real quote |
| QuoteContext.StepShift | src/libinjection_sqli.c:1408-1870 | a round of folding preserves that relation between the two windows while no slipping tag is met from there on |
| QuoteContext.FoldShift | src/libinjection_sqli.c:1371-1889 | folding in a quoted context and folding the quote and the input end in related states, if the scanner comes to no slipping tag |
| QuoteVerdict.QuoteSimulation | src/libinjection_sqli.c:2272-2292 | a quoted context yields the fingerprint of the quote written in front of the input, if the scanner comes to no slipping tag |
| QuoteVerdict.QuoteVerdicts | src/libinjection_sqli.c:2161-2189 | on those inputs the two verdicts differ exactly for known fingerprints sos and s&s whose strings straddle the input, and there only the quoted context detects |
| QuoteExample.LeadingQuoteHidesAttack | src/libinjection_sqli.c:2272-2280 | inputs on which the comment's claim about verdicts fails |
| SlipExample.SlipsMayMatter | src/libinjection_sqli.c:1068-1085 | two inputs with a slipping tag: on one the fingerprints differ, on the other folding drops the difference |
| Engine.Sqli.ParseEolComment | src/libinjection_sqli.c:384-399 | fills the comment token and consumes the newline |
| Engine.Sqli.ParseHash | src/libinjection_sqli.c:404-414 | operator or comment by dialect, with the counter |
| Engine.Sqli.ParseDash | src/libinjection_sqli.c:416-445 | the five dash cases, with the counter for bare double dashes |
| Engine.Sqli.ParseSlash | src/libinjection_sqli.c:488-536 | the comment to its end mark, evil if nested or conditional |
| Engine.Sqli.ParseBackslash | src/libinjection_sqli.c:539-555 | the \N literal or a lone backslash |
| Engine.Sqli.ParseOperator2 | src/libinjection_sqli.c:557-600 | three-, two- and one-byte operators and the colon |
| Engine.Sqli.ParseStringCore | src/libinjection_sqli.c:633-687 | the string token up to the quote a left-to-right reader finds, with its marks |
| Engine.Sqli.ParseString | src/libinjection_sqli.c:692-702 | a string opened by the current byte |
| Engine.Sqli.ParseEString | src/libinjection_sqli.c:709-719 | an escape string, or a word |
| Engine.Sqli.ParseUString | src/libinjection_sqli.c:721-738 | a Unicode string with its own marks, or a word |
| Engine.Sqli.ParseQStringCore | src/libinjection_sqli.c:740-796 | an Oracle q-string with its closing bracket, or a word |
| Engine.Sqli.ParseNqString | src/libinjection_sqli.c:802-810 | a national string or an nq-string |
| Engine.Sqli.ParseDigitString | src/libinjection_sqli.c:816-866 | a quoted run of binary or hex digits, or a word |
| Engine.Sqli.ParseBWord | src/libinjection_sqli.c:873-885 | a bracketed word, closed or not |
| Engine.Sqli.ParseWord | src/libinjection_sqli.c:887-931 | the word, split where a special word ends at a dot or backquote |
| Engine.Sqli.ParseTick | src/libinjection_sqli.c:937-961 | a back-quoted name, a function only if the dictionary says so |
| Engine.Sqli.ParseVar | src/libinjection_sqli.c:963-1013 | a variable, plain or quoted, with the number of at-signs |
| Engine.Sqli.ParseMoney | src/libinjection_sqli.c:1015-1093 | money, dollar-quoted and tagged strings, with the program's own search for the tag |
| Engine.Sqli.ParseNumber | src/libinjection_sqli.c:1095-1193 | hex, binary and decimal numbers with exponent and suffix, or the words they turn out to be |
| Engine.Sqli.Dispatch | src/libinjection_sqli.c:1231-1246 | the scanner the current byte is mapped to is called |
| Engine.Sqli.Tokenize | src/libinjection_sqli.c:1205-1257 | reads exactly the next token of the stream into the current token |
| Engine.Sqli.Rule | src/libinjection_sqli.c:1486-1687 | carries out a ruling on the window in place, and nothing else |
| Engine.Sqli.FoldRound | src/libinjection_sqli.c:1408-1870 | one round of the loop in place is the round on values |
| Engine.Sqli.Fold | src/libinjection_sqli.c:1371-1889 | the in-place fold, proved to end, is the fold on values |
| Engine.Sqli.Reset | src/libinjection_sqli.c:1274-1285 | everything but the input and the dictionary is as new |
| Engine.Sqli.MakeFingerprint | src/libinjection_sqli.c:1901-1958 | the fingerprint and state depend on the input and the flags alone, not on earlier passes |
| Engine.Sqli.IsBlacklisted | src/libinjection_sqli.c:1976-2024 | membership of "0" and the uppercased fingerprint, with type F |
| Engine.Sqli.IsNotWhitelisted | src/libinjection_sqli.c:2029-2221 | the false-positive filter, all reads inside the input |
| Engine.Sqli.CheckFingerprint | src/libinjection_sqli.c:1960-1964 | known fingerprint and not a false positive |
| Engine.Sqli.DetectSqli | src/libinjection_sqli.c:2245-2310 | the staged passes answer whether some context that applies detects an attack, told over the flags |
| PrefixAutomaton.EndsSnoc | src/match_algorithms.c:29-53 | a pattern prefix ends the text and x exactly when it continues a shorter one that ends the text |
| PrefixAutomaton.NextIsLongest | src/match_algorithms.c:29-53 | a step from the longest prefix ending the text gives the longest prefix ending the text and x |
| PrefixAutomaton.NextMachineState | src/match_algorithms.c:29-53 | returns the longest pattern prefix that ends the state's prefix and x |
| PrefixAutomaton.WriteTable | src/match_algorithms.c:56-64 | every entry of the table is the automaton's step |
| PrefixAutomaton.DfaSearch | src/match_algorithms.c:67-87 | true exactly when the pattern occurs in a non-empty text |
| BadCharacter.ShiftIsSafe | src/match_algorithms.c:141-141 | no alignment passed over by a shift can match |
| BadCharacter.BadCharTable | src/match_algorithms.c:108-117 | the table holds the last index of each byte in the pattern, or -1 |
| BadCharacter.BadCharSearch | src/match_algorithms.c:105-146 | true exactly when the pattern occurs |
| RabinKarp.RollIsHash | src/match_algorithms.c:188-188 | in 32-bit arithmetic the rolling update gives the hash of the next window for every pattern length |
| RabinKarp.RollingSearch | src/match_algorithms.c:156-193 | true exactly when the pattern occurs in the first len bytes, whatever the buffer holds behind them |
| RabinKarp.NoOverflow | src/match_algorithms.c:160-190 | for 7-bit data and patterns up to 24 bytes no intermediate value leaves the int range |
| MatchList.LinesAreStretches | src/matchlist.c:26-56 | the tokens are exactly the longest stretches without newlines |
| MatchList.StrTok | src/matchlist.c:30-56 | the next non-empty line of the list |
| MatchList.RulesMean | src/matchlist.c:30-56 | a list matches if a stretch without newlines does, told without the lines and patterns |
| MatchList.OneLine | src/matchlist.c:34-48 | a list of one line asks for the line without its last two bytes |
| MatchList.MatchRules | src/matchlist.c:21-62 | options 1, 2 and 3 agree: some line longer than four bytes has a pattern that occurs in the input; option 4 asks the engine of some line of the other list; any other option finds nothing |
| UrlDecode.UrlDecodeString | src/utils.c:110-136 | the buffer holds the decoded bytes and a terminator and is never overrun |
| UrlDecode.Decode | src/utils.c:115-131 | the decoded string is never longer than the input |
| UrlDecode.DecodeEncode | src/utils.c:101-136 | decoding undoes every percent-encoding of every byte string, in either case, with plus for space |
| UrlDecode.PercentSigns | src/utils.c:101-120 | a percent sign with any two bytes behind it, and with fewer |
| StrnStr.StrNStr | src/strsec.c:132-157 | the leftmost occurrence inside the first slen bytes and before the terminator, NULL exactly when there is none |
| ProxyRuns.StepKeeps | src/proxy.c:176-343 | every callback and every event keeps the invariant |
| ProxyRuns.WhyNotReading | src/proxy.c:201-229 | a connection is not reading exactly when it was blocked, is closing, or is throttled by a live partner that will wake it |
| ProxyRuns.PartnersAreLive | src/proxy.c:268-290 | contexts are nothing or live partners that point back; freed connections are not live |
| ProxyRuns.OutputIsBounded | src/proxy.c:206-212 | while a connection reads, its partner's output is below the limit plus one block page |
| ProxyRuns.NothingLost | src/proxy.c:192-205 | received bytes are passed on complete and in order, in chunks the filter let through |
| ProxyRuns.HangupFlushes | src/proxy.c:268-290 | who hangs up passes on what it still holds unless it is blocked; the partner closes with all it was given sent or still to send, and is freed at once only when nothing is left |
| ProxyRuns.ClosingLosesNothing | src/proxy.c:231-239 | over the rest of a run a half-closed connection keeps all it was given, in order, and is freed only when all of it is sent |
| ProxyRuns.BlockedForever | src/proxy.c:43-61 | once blocked a connection never reads again; once freed it stays freed |
| ProxyRuns.NoLostWakeup | src/proxy.c:217-229 | a throttled connection reads again as soon as its partner's output falls to the low watermark |
| ProxyRuns.ClosingEnds | src/proxy.c:231-239 | a half-closed connection is freed once its output is sent |
| ProxyRuns.BlockedAreAnswered | src/proxy.c:43-61 | in every run exactly the blocked ones were given the page, once, and it is part of what was or is to be sent to them |
| ProxyRuns.ReadBlocks | src/proxy.c:192-200 | the step on blocked input: the page is owed in addition, reading stops |
| ProxyRuns.ReadForwards | src/proxy.c:201-213 | the step on other input: it moves to the partner; when both stop and start |
| ProxyRuns.DrainedWakes | src/proxy.c:217-229 | the step of a drained connection |
| ProxyRuns.AcceptPairs | src/proxy.c:293-343 | the step of a new client, for every outcome of the connection to the server |
| ProxyRuns.LoneHangup | src/proxy.c:268-290 | the step of a hang-up without a partner |
| ProxyRuns.LoneRead | src/proxy.c:186-190 | a read callback without a partner |
| ProxyServer.Proxy.BlockMsg | src/proxy.c:43-61 | appends the page, sets the watermark and stops reading |
| ProxyServer.Proxy.OnRead | src/proxy.c:176-214 | blocks, or passes the whole input on and throttles when the partner's output is full |
| ProxyServer.Proxy.OnDrained | src/proxy.c:217-229 | removes the callback and lets the partner read again |
| ProxyServer.Proxy.OnFinished | src/proxy.c:231-239 | frees the connection when nothing is left to send |
| ProxyServer.Proxy.OnEvent | src/proxy.c:242-290 | flushes, frees or half-closes the partner, and frees the connection |
| ProxyServer.Proxy.OnAccept | src/proxy.c:293-343 | two connections that point at each other and read, with a filter in the place of the one it wraps; or both freed, if connecting or wrapping fails |
| ProxyServer.Proxy.Handle | src/proxy.c:176-343 | one event is one step of the state machine and keeps its invariant |
| ProxyServer.Proxy.Serve | src/proxy.c:176-343 | any sequence of events is a run of the state machine |

## Left out

- The keyword table is any sorted table of 7-bit words; its 9352 entries and facts about particular SQL words are not part of this model.
- A custom `lookup` callback: the functions take any dictionary for words and operators, but the class `Engine.Sqli` and the verdict use the default one.
- Pointer aliasing of the current token with a window slot: the class fills a separate token and copies it into the slot.
- `len` of a token: it always equals the length of the value and is not stored; after an evil fingerprint the program leaves the old `len` of the first token, which nothing reads.
- `stats_comment_ddw`, `stats_comment_c`, `reason` and `userdata`: never read by the code modelled here.
- `parse_slash` on a comment without an end mark computes a length from a null pointer (line 528); the model takes the search for a nested comment to find nothing.
- The widths of the counters and of positions: they are natural numbers.
- QuoteSimulation: says nothing of the fingerprint where the scanner comes to a slipping tag; TokensShift says what is read there, and SlipsMayMatter that folding may keep the difference or drop it.
- MatchRules: the regular expression engine of option 4 is any function of the line and the text; an expression that does not compile, which ends the program, is not modelled.
- DfaSearch: bytes of 128 and more, which the program uses as negative array indexes.
- BadCharSearch: bytes of 128 and more, for the same reason.
- UrlDecodeString: arguments with `size` below the string length, and data without a terminator, on which the program overruns its buffers.
- The text of the block page: a parameter of the proxy model, as its content decides nothing.
- `filter_check`: an abstract decision on the bytes buffered; the address block list, which `strtok` cuts up in place, the request test and the logging are not modelled.
- `split_and_check`, `is_request` and the other small text routines: they would only add easy members.
- The event library: deferred callbacks, timeouts and what an encryption filter does with the connection it wraps; the library is taken to call readcb only on connections that read and write callbacks only at or below the low watermark, and to move whole buffers.
- `assert` on the results of `bufferevent_socket_new` in `accept_cb`: new connections are taken to exist.
- Sockets, options, files, start-up and logging.
