/** The detector as the program runs it: one mutable state, scanners that work on absolute
    positions and fill the current token in place, the folding loop over the token window,
    and the passes over one input. Every method is proved against the functions that the
    theorems are about. */
module Engine {
  import opened Bytes
  import opened Tokens
  import opened Keywords
  import opened Scanners
  import opened ScannerFacts
  import opened QuoteSearch
  import opened Tokenizer
  import opened FoldRules
  import opened Fold
  import opened FoldRun
  import opened Verdict
  import FilterLaws

  lemma {:induction false} UpperSnoc(s: bytes, c: byte)
    ensures Upper(s + [c]) == Upper(s) + [UpperByte(c)]
  {
    assert forall i :: 0 <= i < |s| ==> (s + [c])[i] == s[i];
  }

  /** Upper-casing a fingerprint before the table does changes nothing. */
  lemma UpperTwice(s: bytes)
    ensures Upper(['0'] + Upper(s)) == ['0'] + Upper(s)
  {
    var u := Upper(s);
    assert forall i :: 0 <= i < |s| ==> UpperByte(u[i]) == u[i];
  }

  lemma SqueezeBounds(job: Job, f: Folding)
    requires Inv(job, f)
    ensures Inv(job, Squeeze(f))
  {
  }

  /** Which scanner a dispatch calls. */
  lemma DispatchScan(s: bytes, p: nat, flags: Flags, lookup: Lookup)
    requires p < |s|
    ensures CharParseMap(s[p]) != ParseMoney ==> ScanAt(s, p, flags, lookup) == ScanHere(s[p..], flags, lookup)
    ensures CharParseMap(s[p]) == ParseMoney <==> s[p] == '$'
    ensures CharParseMap(s[p]) == ParseHash ==> s[p] == '#'
    ensures CharParseMap(s[p]) == ParseString ==> s[p] != '\\'
  {
    hide ScanHere;
  }

  /** The index of the mark that closes the comment at p, |s| if there is none. */
  function CommentClose(s: bytes, p: nat): (close: nat)
    requires p + 1 < |s|
    ensures close == |s| || (p + 2 <= close && close + 1 < |s|)
  {
    p + 2 + IndexOf2(s[p + 2..|s|], '*', '/')
  }

  function CommentLength(s: bytes, p: nat): (len: nat)
    requires p + 1 < |s|
    ensures p + len <= |s|
  {
    var close := CommentClose(s, p);
    if close == |s| then |s| - p else close + 2 - p
  }

  /** A comment inside the comment, or a MySQL condition, is evil. */
  function CommentType(s: bytes, p: nat): byte
    requires p + 1 < |s|
  {
    var close := CommentClose(s, p);
    var nested := close < |s| && p + 2 + IndexOf2(s[p + 2..close + 1], '/', '*') < close + 1;
    if nested || (p + 2 < |s| && s[p + 2] == '!') then EVIL else COMMENT
  }

  /** The comment scanner on absolute positions. */
  lemma SlashAt(s: bytes, p: nat)
    requires p < |s|
    ensures Slash(s[p..]) ==
      if p + 1 == |s| || s[p + 1] != '*' then One(OPERATOR, s[p])
      else Plain(CommentLength(s, p), CommentType(s, p), 0, s[p..p + CommentLength(s, p)])
  {
    hide Plain, IndexOf2;
    var r := s[p..];
    if |r| > 1 && r[1] == '*' {
      assert r[2..] == s[p + 2..|s|];
      var end := IndexOf2(r[2..], '*', '/');
      var len := if end == |r| - 2 then |r| else end + 4;
      assert r[..len] == s[p..p + len];
      if end < |r| - 2 { assert r[2..][..end + 1] == s[p + 2..p + 2 + end + 1]; }
    }
  }

  /** The digit-string scanner on absolute positions. */
  lemma DigitStringAt(s: bytes, p: nat, digits: string, lookup: Lookup)
    requires p < |s|
    ensures var n := if p + 2 < |s| then Span(s[p + 2..], digits) else 0;
      DigitString(s[p..], digits, lookup) ==
        if p + 2 >= |s| || s[p + 1] != '\'' || p + 2 + n >= |s| || s[p + 2 + n] != '\'' then Word(s[p..], lookup)
        else Plain(n + 3, NUMBER, 0, s[p..p + n + 3])
  {
    hide Word, Span, Plain;
    var r := s[p..];
    if |r| > 2 {
      assert r[2..] == s[p + 2..];
      var n := Span(r[2..], digits);
      if 2 + n < |r| { assert r[..n + 3] == s[p..p + n + 3]; }
    }
  }

  /** The variable scanner on absolute positions. */
  lemma VarAt(s: bytes, p: nat, lookup: Lookup)
    requires p < |s|
    ensures var d := if p + 1 < |s| && s[p + 1] == '@' then 2 else 1;
      var v := p + d;
      Var(s[p..], lookup) ==
        if v < |s| && (s[v] == '`' || s[v] == '\'' || s[v] == '"') then
          var sc := if s[v] == '`' then Tick(s[v..], lookup) else StringCore(s[v..], s[v], 1);
          Scan(d + sc.len, sc.tok.Moved(d).(typ := VARIABLE, count := d), 0, 0)
        else
          var n := SpanNot(s[v..], VAR_STOPS);
          Scan(d + n, CLEAR.Assign(VARIABLE, d, s[v..v + n]).(count := d), 0, 0)
  {
    hide StringCore, Tick, SpanNot, Cut;
    var r := s[p..];
    var d := if |r| > 1 && r[1] == '@' then 2 else 1;
    assert r[d..] == s[p + d..];
    var n := SpanNot(r[d..], VAR_STOPS);
    assert r[d..][..n] == s[p + d..p + d + n];
  }

  /** The word scanner on absolute positions. */
  lemma WordAt(s: bytes, p: nat, lookup: Lookup)
    requires p < |s|
    ensures var len := SpanNot(s[p..], WORD_STOPS);
      var val := Cut(s[p..p + len]);
      var i := SplitAt(val, lookup, 0);
      var ch := if len < TOKEN_SIZE then lookup(WordLookup, val) else NUL;
      Word(s[p..], lookup) ==
        if i < |val| then Plain(i, lookup(WordLookup, val[..i]), 0, s[p..p + i])
        else Plain(len, if ch == NUL then BAREWORD else ch, 0, s[p..p + len])
  {
    hide SplitAt, SpanNot, Plain;
    var len := SpanNot(s[p..], WORD_STOPS);
    assert s[p..p + len] == s[p..][..len];
    var i := SplitAt(Cut(s[p..p + len]), lookup, 0);
    assert s[p..p + i] == s[p..][..i];
  }

  /** The q-string scanner on absolute positions. */
  lemma QStringAt(s: bytes, p: nat, offset: nat, lookup: Lookup)
    requires p < |s| && offset <= 1
    ensures var pos := p + offset;
      if pos >= |s| || (s[pos] != 'q' && s[pos] != 'Q') || pos + 2 >= |s| || s[pos + 1] != '\''
         || Signed(s[pos + 2]) < 33
      then QStringCore(s[p..], offset, lookup) == Word(s[p..], lookup)
      else
        var end := pos + 3 + IndexOf2(s[pos + 3..|s|], QClose(s[pos + 2]), '\'');
        QStringCore(s[p..], offset, lookup) ==
          if end == |s| then Quoted(|s| - p, offset + 3, s[pos + 3..|s|], 'q', NUL)
          else Quoted(end + 2 - p, offset + 3, s[pos + 3..end], 'q', 'q')
  {
    hide Word, Quoted, IndexOf2, QClose;
    var q := s[p..][offset..];
    assert q == s[p + offset..];
    if |q| > 2 {
      var body := q[3..];
      assert body == s[p + offset + 3..|s|];
      var end := IndexOf2(body, QClose(q[2]), '\'');
      assert body[..end] == s[p + offset + 3..p + offset + 3 + end];
    }
  }

  /** A string token's counter is left alone. */
  lemma StringCoreClean(r: bytes, delim: byte, offset: nat)
    requires offset <= |r|
    ensures var sc := StringCore(r, delim, offset); sc.tok.count == 0 && sc.ddx == 0 && sc.hash == 0
  {
  }

  lemma RadixNeedsTwo(r: bytes)
    requires r != [] && RadixDigits(r) != ""
    ensures |r| > 1
  {
  }

  /** End of the mantissa that starts at p. */
  function MantissaEnd(s: bytes, p: nat): (m: nat)
    requires p <= |s|
    ensures p <= m <= |s|
  {
    var d := p + Digits(s[p..]);
    if d < |s| && s[d] == '.' then d + 1 + Digits(s[d + 1..]) else d
  }

  /** Where the digits of the exponent that starts at m begin. */
  function ExponentStart(s: bytes, m: nat): (e: nat)
    requires m <= |s|
    ensures m < |s| ==> m < e <= |s|
  {
    if m + 1 < |s| && (s[m + 1] == '+' || s[m + 1] == '-') then m + 2 else m + 1
  }

  /** Where the decimal number at the start of r ends before its suffix, and whether it has an
      exponent without digits. */
  function DecimalBody(r: bytes): (b: (nat, bool))
    requires r != []
    ensures b.0 <= |r|
  {
    var m := Mantissa(r);
    if m < |r| && (r[m] == 'E' || r[m] == 'e') then
      var e := ExponentDigits(r, m);
      var n := Digits(r[e..]);
      (e + n, n == 0)
    else (m, false)
  }

  lemma DecimalIs(r: bytes)
    requires r != [] && RadixDigits(r) == ""
    ensures var b := DecimalBody(r);
      Number(r) ==
        if Mantissa(r) == 1 && r[0] == '.' then One(DOT, '.')
        else Plain(WithSuffix(r, b.0), if b.1 then BAREWORD else NUMBER, 0, r[..WithSuffix(r, b.0)])
  {
    hide Digits, Plain, WithSuffix, RadixDigits, Mantissa, ExponentDigits;
  }

  lemma SuffixFits(r: bytes, n: nat)
    requires n <= |r|
    ensures n <= WithSuffix(r, n) <= |r|
  {
  }

  lemma ExponentAt(s: bytes, p: nat, m: nat)
    requires p + m < |s|
    ensures ExponentStart(s, p + m) == p + ExponentDigits(s[p..], m)
  {
  }

  lemma MantissaAt(s: bytes, p: nat)
    requires p < |s|
    ensures MantissaEnd(s, p) == p + Mantissa(s[p..])
  {
    var r := s[p..];
    var d := Digits(r);
    if d < |r| { assert r[d + 1..] == s[p + d + 1..]; }
  }

  /** The decimal scanner on absolute positions. */
  lemma DecimalAt(s: bytes, p: nat)
    requires p < |s| && RadixDigits(s[p..]) == ""
    ensures var m := MantissaEnd(s, p);
      if m == p + 1 && s[p] == '.' then Number(s[p..]) == One(DOT, '.')
      else
        var haveE := m < |s| && (s[m] == 'E' || s[m] == 'e');
        var e := ExponentStart(s, m);
        var x := if haveE then e + Digits(s[e..]) else m;
        var end := p + WithSuffix(s[p..], x - p);
        Number(s[p..]) == Plain(end - p, if haveE && x == e then BAREWORD else NUMBER, 0, s[p..end])
  {
    hide Digits, Plain, One, WithSuffix, RadixDigits, MantissaEnd, Mantissa, ExponentStart, ExponentDigits, Number;
    var r := s[p..];
    MantissaAt(s, p);
    DecimalIs(r);
    var m := Mantissa(r);
    if m < |r| { ExponentAt(s, p, m); }
    var b := DecimalBody(r);
    SuffixFits(r, b.0);
    assert r[..WithSuffix(r, b.0)] == s[p..p + WithSuffix(r, b.0)];
    if m < |r| { assert r[ExponentDigits(r, m)..] == s[p + ExponentDigits(r, m)..]; }
  }

  class Sqli {
    const s: bytes
    const table: seq<Keyword>
    const vec: array<Token>
    var flags: Flags
    var src: nat
    var current: Token
    var fingerprint: bytes
    var ddx: nat
    var hash: nat
    var tokens: nat
    var folds: nat

    ghost predicate Valid()
      reads this
    {
      IsTable(table) && vec.Length == WINDOW && src <= |s|
    }

    /** A scanner may be called: there is input left and the current token is clear. */
    ghost predicate Ready()
      reads this
    {
      Valid() && src < |s| && current == CLEAR
    }

    ghost function TheJob(): Job
      reads this
    {
      Job(s, flags, Dictionary(table))
    }

    ghost function TheCursor(): Cursor
      reads this
    {
      Cursor(src, ddx, hash, tokens)
    }

    /** A scanner made the call `sc` from the position it was entered at. */
    twostate predicate Scanned(next: nat, sc: Scan)
      requires old(Valid())
      reads this
    {
      && Valid()
      && next == old(src) + sc.len
      && current == sc.tok.Moved(old(src))
      && ddx == old(ddx) + sc.ddx && hash == old(hash) + sc.hash
      && tokens == old(tokens) && folds == old(folds)
      && flags == old(flags) && fingerprint == old(fingerprint)
    }

    /** The default `lookup` for words and operators. */
    method LookupWord(kind: LookupKind, word: bytes) returns (typ: byte)
      requires Valid()
      ensures typ == Dictionary(table)(kind, word)
    {
      typ := BsearchKeywordType(word, table);
    }

    method ParseOperator1() returns (next: nat)
      requires Ready()
      modifies this
      ensures Scanned(next, One(OPERATOR, old(s[src])))
    {
      hide IsTable, Dictionary;
      current := current.Assign(OPERATOR, src, [s[src]]);
      next := src + 1;
    }

    method ParseOther() returns (next: nat)
      requires Ready()
      modifies this
      ensures Scanned(next, One(UNKNOWN, old(s[src])))
    {
      hide IsTable, Dictionary;
      current := current.Assign(UNKNOWN, src, [s[src]]);
      next := src + 1;
    }

    method ParseChar() returns (next: nat)
      requires Ready()
      modifies this
      ensures Scanned(next, One(old(s[src]), old(s[src])))
    {
      hide IsTable, Dictionary;
      current := current.Assign(s[src], src, [s[src]]);
      next := src + 1;
    }

    method ParseEolComment() returns (next: nat)
      requires Ready()
      modifies this
      ensures Scanned(next, EolComment(old(s[src..])))
    {
      hide IsTable, Dictionary;
      var end := MemChr(s, src, '\n');
      current := current.Assign(COMMENT, src, s[src..end]);
      assert s[src..end] == s[src..][..end - src];
      next := if end == |s| then end else end + 1;
    }

    method ParseHash() returns (next: nat)
      requires Ready() && s[src] == '#'
      modifies this
      ensures Scanned(next, Hash(old(s[src..]), old(flags)))
    {
      hide IsTable, Dictionary;
      hash := hash + 1;
      if flags.mysql {
        hash := hash + 1;
        next := ParseEolComment();
      } else {
        current := current.Assign(OPERATOR, src, ['#']);
        next := src + 1;
      }
    }

    method ParseDash() returns (next: nat)
      requires Ready()
      modifies this
      ensures Scanned(next, Dash(old(s[src..]), old(flags)))
    {
      hide IsTable, Dictionary;
      ghost var r := s[src..];
      assert src + 1 < |s| ==> r[1] == s[src + 1];
      assert src + 2 < |s| ==> r[2] == s[src + 2];
      if src + 2 < |s| && s[src + 1] == '-' && IsWhite(s[src + 2]) {
        next := ParseEolComment();
      } else if src + 2 == |s| && s[src + 1] == '-' {
        next := ParseEolComment();
      } else if src + 1 < |s| && s[src + 1] == '-' && flags.ansi {
        ddx := ddx + 1;
        next := ParseEolComment();
      } else {
        current := current.Assign(OPERATOR, src, ['-']);
        next := src + 1;
      }
    }

    /** Length and type of the comment at the current position. */
    method MeasureComment() returns (len: nat, ctype: byte)
      requires src + 1 < |s|
      ensures len == CommentLength(s, src) && ctype == CommentType(s, src)
    {
      hide IndexOf2;
      var close := MemChr2(s, src + 2, |s|, '*', '/');
      len := if close == |s| then |s| - src else close + 2 - src;
      ctype := COMMENT;
      var nested := false;
      if close < |s| {
        var inner := MemChr2(s, src + 2, close + 1, '/', '*');
        nested := inner < close + 1;
      }
      if nested {
        ctype := EVIL;
      } else if src + 2 < |s| && s[src + 2] == '!' {
        ctype := EVIL;
      }
    }

    method ParseSlash() returns (next: nat)
      requires Ready()
      modifies this
      ensures Scanned(next, Slash(old(s[src..])))
    {
      hide IsTable, Dictionary, Slash, Cut, CommentLength, CommentType;
      SlashAt(s, src);
      if src + 1 == |s| || s[src + 1] != '*' {
        next := ParseOperator1();
        return;
      }
      var len, ctype := MeasureComment();
      current := current.Assign(ctype, src, s[src..src + len]);
      next := src + len;
    }

    method ParseBackslash() returns (next: nat)
      requires Ready()
      modifies this
      ensures Scanned(next, Backslash(old(s[src..])))
    {
      hide IsTable, Dictionary;
      if src + 1 < |s| && s[src + 1] == 'N' {
        current := current.Assign(NUMBER, src, s[src..src + 2]);
        assert s[src..src + 2] == s[src..][..2];
        next := src + 2;
      } else {
        current := current.Assign(BACKSLASH, src, [s[src]]);
        next := src + 1;
      }
    }

    method ParseOperator2() returns (next: nat)
      requires Ready()
      modifies this
      ensures Scanned(next, Operator2(old(s[src..]), Dictionary(table)))
    {
      hide IsTable, Dictionary;
      ghost var r := s[src..];
      if src + 1 >= |s| {
        next := ParseOperator1();
        return;
      }
      if src + 2 < |s| && s[src] == '<' && s[src + 1] == '=' && s[src + 2] == '>' {
        current := current.Assign(OPERATOR, src, s[src..src + 3]);
        assert s[src..src + 3] == r[..3];
        return src + 3;
      }
      assert s[src..src + 2] == r[..2];
      var ch := LookupWord(OperatorLookup, s[src..src + 2]);
      if ch != NUL {
        current := current.Assign(ch, src, s[src..src + 2]);
        next := src + 2;
      } else if s[src] == ':' {
        current := current.Assign(COLON, src, s[src..src + 1]);
        assert s[src..src + 1] == [s[src]];
        next := src + 1;
      } else {
        next := ParseOperator1();
      }
    }

    /** `parse_string_core` at position `at`, which need not be the current position. */
    method ParseStringCore(at: nat, delim: byte, offset: nat) returns (next: nat)
      requires at + offset <= |s| && delim != '\\'
      requires current == CLEAR.(count := current.count)
      modifies this`current
      ensures next == at + StringCore(s[at..], delim, offset).len
      ensures current == StringCore(s[at..], delim, offset).tok.Moved(at).(count := old(current.count))
    {
      hide ClosingQuote, CloseFrom, Cut;
      var start := at + offset;
      assert s[at..][offset..] == s[start..];
      current := current.(strOpen := if offset > 0 then delim else NUL);
      var q := FindClosingQuote(s, start, delim);
      if q == |s| {
        current := current.Assign(STRING, start, s[start..]).(strClose := NUL);
        next := |s|;
      } else {
        current := current.Assign(STRING, start, s[start..q]).(strClose := delim);
        assert s[start..q] == s[start..][..q - start];
        next := q + 1;
      }
    }

    /** A token whose counter may have been set already, and nothing else. */
    ghost predicate Counting()
      reads this
    {
      Valid() && src < |s| && current == CLEAR.(count := current.count)
    }

    method ParseString() returns (next: nat)
      requires Counting() && s[src] != '\\'
      modifies this`current
      ensures next == src + StringCore(s[src..], s[src], 1).len
      ensures current == StringCore(s[src..], s[src], 1).tok.Moved(src).(count := old(current.count))
    {
      next := ParseStringCore(src, s[src], 1);
    }

    /** The loop inside parse_word: where a special word ends at a '.' or '`', and its type. */
    method FindSplit(val: bytes) returns (i: nat, ch: byte)
      requires Valid()
      ensures i == SplitAt(val, Dictionary(table), 0)
      ensures i < |val| ==> ch == Dictionary(table)(WordLookup, val[..i])
    {
      hide IsTable, Dictionary;
      i, ch := 0, NUL;
      while i < |val|
        invariant i <= |val|
        invariant SplitAt(val, Dictionary(table), 0) == SplitAt(val, Dictionary(table), i)
      {
        if val[i] == '.' || val[i] == '`' {
          ch := LookupWord(WordLookup, val[..i]);
          if ch != NUL && ch != BAREWORD {
            return;
          }
        }
        i := i + 1;
      }
    }

    method ParseWord() returns (next: nat)
      requires Ready()
      modifies this
      ensures Scanned(next, Word(old(s[src..]), Dictionary(table)))
    {
      hide IsTable, Dictionary, SpanNot, SplitAt, Word, Cut;
      WordAt(s, src, Dictionary(table));
      var wlen := StrLenCSpn(s, src, WORD_STOPS);
      current := current.Assign(BAREWORD, src, s[src..src + wlen]);
      var val := current.val;
      var i, ch := FindSplit(val);
      if i < |val| {
        current := CLEAR;
        current := current.Assign(ch, src, s[src..src + i]);
        return src + i;
      }
      if wlen < TOKEN_SIZE {
        ch := LookupWord(WordLookup, val);
        current := current.(typ := if ch == NUL then BAREWORD else ch);
      }
      next := src + wlen;
    }

    method ParseEString() returns (next: nat)
      requires Ready()
      modifies this
      ensures Scanned(next, EString(old(s[src..]), Dictionary(table)))
    {
      hide IsTable, Dictionary, StringCore, Word;
      if src + 2 >= |s| || s[src + 1] != '\'' {
        next := ParseWord();
      } else {
        StringCoreClean(s[src..], '\'', 2);
        next := ParseStringCore(src, '\'', 2);
      }
    }

    method ParseUString() returns (next: nat)
      requires Ready()
      modifies this
      ensures Scanned(next, UString(old(s[src..]), Dictionary(table)))
    {
      hide IsTable, Dictionary, StringCore, Word;
      ghost var r := s[src..];
      if src + 2 < |s| && s[src + 1] == '&' && s[src + 2] == '\'' {
        assert r[2..] == s[src + 2..];
        src := src + 2;
        StringCoreClean(s[src..], '\'', 1);
        next := ParseString();
        current := current.(strOpen := 'u');
        if current.strClose == '\'' {
          current := current.(strClose := 'u');
        }
      } else {
        next := ParseWord();
      }
    }

    method ParseQStringCore(offset: nat) returns (next: nat)
      requires Ready() && offset <= 1
      modifies this
      ensures Scanned(next, QStringCore(old(s[src..]), offset, Dictionary(table)))
    {
      hide IsTable, Dictionary, Word, QStringCore, IndexOf2, Cut, Signed;
      var pos := src + offset;
      QStringAt(s, src, offset, Dictionary(table));
      if pos >= |s| || (s[pos] != 'q' && s[pos] != 'Q') || pos + 2 >= |s| || s[pos + 1] != '\'' {
        next := ParseWord();
        return;
      }
      if Signed(s[pos + 2]) < 33 {
        next := ParseWord();
        return;
      }
      var ch := QClose(s[pos + 2]);
      var end := MemChr2(s, pos + 3, |s|, ch, '\'');
      if end == |s| {
        current := current.Assign(STRING, pos + 3, s[pos + 3..|s|]).(strOpen := 'q', strClose := NUL);
        next := |s|;
      } else {
        current := current.Assign(STRING, pos + 3, s[pos + 3..end]).(strOpen := 'q', strClose := 'q');
        next := end + 2;
      }
    }

    method ParseNqString() returns (next: nat)
      requires Ready()
      modifies this
      ensures Scanned(next, NqString(old(s[src..]), Dictionary(table)))
    {
      hide IsTable, Dictionary, EString, QStringCore;
      if src + 2 < |s| && s[src + 1] == '\'' {
        next := ParseEString();
      } else {
        next := ParseQStringCore(1);
      }
    }

    /** `parse_bstring` and `parse_xstring`, which differ in their digits only. */
    method ParseDigitString(digits: string) returns (next: nat)
      requires Ready()
      modifies this
      ensures Scanned(next, DigitString(old(s[src..]), digits, Dictionary(table)))
    {
      hide IsTable, Dictionary, Word, Span, DigitString, Cut;
      DigitStringAt(s, src, digits, Dictionary(table));
      if src + 2 >= |s| || s[src + 1] != '\'' {
        next := ParseWord();
        return;
      }
      var wlen := StrLenSpn(s, src + 2, digits);
      if src + 2 + wlen >= |s| || s[src + 2 + wlen] != '\'' {
        next := ParseWord();
        return;
      }
      current := current.Assign(NUMBER, src, s[src..src + wlen + 3]);
      next := src + 2 + wlen + 1;
    }

    method ParseBWord() returns (next: nat)
      requires Ready()
      modifies this
      ensures Scanned(next, BWord(old(s[src..])))
    {
      hide IsTable, Dictionary, IndexOf, Cut;
      var end := MemChr(s, src, ']');
      next := if end == |s| then |s| else end + 1;
      current := current.Assign(BAREWORD, src, s[src..next]);
      assert s[src..next] == s[src..][..next - src];
    }

    method ParseTick() returns (next: nat)
      requires Counting()
      modifies this`current
      ensures next == src + Tick(s[src..], Dictionary(table)).len
      ensures current == Tick(s[src..], Dictionary(table)).tok.Moved(src).(count := old(current.count))
    {
      hide IsTable, Dictionary, StringCore;
      next := ParseStringCore(src, '`', 1);
      var ch := LookupWord(WordLookup, current.val);
      current := current.(typ := if ch == FUNCTION then FUNCTION else BAREWORD);
    }

    method ParseVar() returns (next: nat)
      requires Ready()
      modifies this
      ensures Scanned(next, Var(old(s[src..]), Dictionary(table)))
    {
      hide IsTable, Dictionary, StringCore, Tick, SpanNot, Cut, Var;
      VarAt(s, src, Dictionary(table));
      var pos := src + 1;
      if pos < |s| && s[pos] == '@' {
        pos := pos + 1;
        current := current.(count := 2);
      } else {
        current := current.(count := 1);
      }
      if pos < |s| && (s[pos] == '`' || s[pos] == '\'' || s[pos] == '"') {
        src := pos;
        if s[pos] == '`' {
          next := ParseTick();
        } else {
          next := ParseString();
        }
        current := current.(typ := VARIABLE);
      } else {
        var xlen := StrLenCSpn(s, pos, VAR_STOPS);
        current := current.Assign(VARIABLE, pos, s[pos..pos + xlen]);
        next := pos + xlen;
      }
    }

    /** The part of parse_money behind an opening tag with xlen letters. */
    method ParseMoneyTag(xlen: nat) returns (next: nat)
      requires Ready() && OpensTag(s[src..]) && xlen + 2 == TagLength(s[src..])
      modifies this
      ensures Scanned(next, MoneyTag(s, old(src)))
    {
      hide IsTable, Dictionary, OpensTag, FirstAt, Cut, TagLength, OccursAt, Span;
      ghost var r := s[src..];
      var body := src + xlen + 2;
      assert r[..xlen + 2] == s[src..body];
      var end := MemMem(s[src..body], s[..|s| - src], xlen + 2);
      if end > |s| - src || end < body {
        current := current.Assign(STRING, body, s[body..]).(strOpen := '$', strClose := NUL);
        assert r[xlen + 2..] == s[body..];
        next := |s|;
      } else {
        current := current.Assign(STRING, body, s[body..end]).(strOpen := '$', strClose := '$');
        next := end + xlen + 2;
      }
    }

    /** The part of parse_money behind a dollar sign with neither a number nor a second one. */
    method ParseLoneDollar() returns (next: nat)
      requires Ready() && s[src] == '$' && src + 1 < |s| && s[src + 1] != '$'
      requires Span(s[src..][1..], MONEY_CHARS) == 0
      modifies this
      ensures Scanned(next, if OpensTag(old(s[src..])) then MoneyTag(s, old(src))
                            else Money(old(s[src..]), Dictionary(table)))
    {
      hide IsTable, Dictionary, Word, MoneyTag, Span, Accepts, IndexOf2, Cut, LETTERS, MONEY_CHARS;
      ghost var r := s[src..];
      assert r[1..] == s[src + 1..];
      var xlen := StrLenSpn(s, src + 1, LETTERS);
      if xlen == 0 || src + xlen + 1 == |s| || s[src + xlen + 1] != '$' {
        current := current.Assign(BAREWORD, src, ['$']);
        next := src + 1;
      } else {
        next := ParseMoneyTag(xlen);
      }
    }

    /** The part of parse_money behind `$$`. */
    method ParseDollarString() returns (next: nat)
      requires Ready() && src + 1 < |s| && s[src + 1] == '$' && Span(s[src..][1..], MONEY_CHARS) == 0
      modifies this
      ensures Scanned(next, Money(old(s[src..]), Dictionary(table)))
    {
      hide IsTable, Dictionary, Word, Span, IndexOf2, Cut;
      assert s[src..][2..] == s[src + 2..|s|];
      var end := MemChr2(s, src + 2, |s|, '$', '$');
      current := current.Assign(STRING, src + 2, s[src + 2..end]).(strOpen := '$');
      if end == |s| {
        current := current.(strClose := NUL);
        next := |s|;
      } else {
        assert s[src + 2..end] == s[src + 2..|s|][..end - src - 2];
        current := current.(strClose := '$');
        next := end + 2;
      }
    }

    method ParseMoney() returns (next: nat)
      requires Ready() && s[src] == '$'
      modifies this
      ensures Scanned(next, if OpensTag(old(s[src..])) then MoneyTag(s, old(src))
                            else Money(old(s[src..]), Dictionary(table)))
    {
      hide IsTable, Dictionary, Word, MoneyTag, Span, Accepts, IndexOf2, Cut, LETTERS, MONEY_CHARS;
      ghost var r := s[src..];
      if src + 1 == |s| {
        current := current.Assign(BAREWORD, src, ['$']);
        return |s|;
      }
      assert r[1..] == s[src + 1..];
      var xlen := StrLenSpn(s, src + 1, MONEY_CHARS);
      if xlen == 0 && s[src + 1] == '$' {
        next := ParseDollarString();
      } else if xlen == 0 {
        next := ParseLoneDollar();
      } else if xlen == 1 && s[src + 1] == '.' {
        next := ParseWord();
      } else {
        current := current.Assign(NUMBER, src, s[src..src + 1 + xlen]);
        assert s[src..src + 1 + xlen] == r[..1 + xlen];
        next := src + 1 + xlen;
      }
    }

    /** The first position at or after `from` that is not a digit. */
    method SkipDigits(from: nat) returns (pos: nat)
      requires from <= |s|
      ensures pos == from + Digits(s[from..])
    {
      pos := from;
      while pos < |s| && IsDigit(s[pos])
        invariant from <= pos <= |s|
        invariant from + Digits(s[from..]) == pos + Digits(s[pos..])
      {
        pos := pos + 1;
      }
    }

    /** Oracle's float suffix, taken only where a number may end. */
    method SkipSuffix(from: nat) returns (pos: nat)
      requires from <= |s|
      ensures forall p: nat :: p <= from ==> pos == p + WithSuffix(s[p..], from - p)
    {
      pos := from;
      if pos < |s| && IsFloatSuffix(s[pos]) {
        if pos + 1 == |s| {
          pos := pos + 1;
        } else if IsWhite(s[pos + 1]) || s[pos + 1] == ';' {
          pos := pos + 1;
        } else if s[pos + 1] == 'u' || s[pos + 1] == 'U' {
          pos := pos + 1;
        }
      }
    }

    method ParseRadixNumber(digits: string) returns (next: nat)
      requires Ready() && digits != "" && digits == RadixDigits(s[src..])
      modifies this
      ensures Scanned(next, Number(old(s[src..])))
    {
      hide IsTable, Dictionary, Span, Cut, RadixDigits;
      ghost var r := s[src..];
      assert |r| > 1 by { RadixNeedsTwo(r); }
      assert r[2..] == s[src + 2..];
      var xlen := StrLenSpn(s, src + 2, digits);
      assert r[..2 + xlen] == s[src..src + 2 + xlen];
      current := current.Assign(if xlen == 0 then BAREWORD else NUMBER, src, s[src..src + 2 + xlen]);
      next := src + 2 + xlen;
    }

    /** digits [ '.' digits ] */
    method SkipMantissa(from: nat) returns (pos: nat)
      requires from <= |s|
      ensures pos == MantissaEnd(s, from)
    {
      pos := SkipDigits(from);
      if pos < |s| && s[pos] == '.' {
        pos := SkipDigits(pos + 1);
      }
    }

    /** The exponent, which may turn out to have no digits. */
    method SkipExponent(from: nat) returns (pos: nat, haveE: bool, haveExp: bool)
      requires from <= |s|
      ensures haveE == (from < |s| && (s[from] == 'E' || s[from] == 'e'))
      ensures pos == if haveE then ExponentStart(s, from) + Digits(s[ExponentStart(s, from)..]) else from
      ensures haveExp == (haveE && pos > ExponentStart(s, from))
    {
      pos, haveE, haveExp := from, false, false;
      if pos < |s| && (s[pos] == 'E' || s[pos] == 'e') {
        haveE := true;
        pos := pos + 1;
        if pos < |s| && (s[pos] == '+' || s[pos] == '-') {
          pos := pos + 1;
        }
        var first := pos;
        pos := SkipDigits(pos);
        haveExp := pos > first;
      }
    }

    /** The decimal part of parse_number. */
    method ParseDecimal() returns (next: nat)
      requires Ready() && RadixDigits(s[src..]) == ""
      modifies this
      ensures Scanned(next, Number(old(s[src..])))
    {
      hide IsTable, Dictionary, Digits, Cut, Number, WithSuffix, MantissaEnd, ExponentStart;
      DecimalAt(s, src);
      var start := src;
      var pos := SkipMantissa(start);
      if pos - start == 1 && s[start] == '.' {
        current := current.Assign(DOT, start, ['.']);
        return pos;
      }
      var haveE, haveExp;
      pos, haveE, haveExp := SkipExponent(pos);
      pos := SkipSuffix(pos);
      current := current.Assign(if haveE && !haveExp then BAREWORD else NUMBER, start, s[start..pos]);
      next := pos;
    }

    method ParseNumber() returns (next: nat)
      requires Ready()
      modifies this
      ensures Scanned(next, Number(old(s[src..])))
    {
      hide IsTable, Dictionary, Span, Cut, Number, Scanned;
      var digits := "";
      if s[src] == '0' && src + 1 < |s| {
        if s[src + 1] == 'X' || s[src + 1] == 'x' {
          digits := HEX_DIGITS;
        } else if s[src + 1] == 'B' || s[src + 1] == 'b' {
          digits := BINARY_DIGITS;
        }
      }
      if digits != "" {
        next := ParseRadixNumber(digits);
      } else {
        next := ParseDecimal();
      }
    }

    method DispatchString() returns (next: nat)
      requires Ready() && s[src] != '\\'
      modifies this
      ensures Scanned(next, StringCore(old(s[src..]), old(s[src]), 1))
    {
      hide StringCore;
      StringCoreClean(s[src..], s[src], 1);
      next := ParseString();
    }

    method DispatchTick() returns (next: nat)
      requires Ready()
      modifies this
      ensures Scanned(next, Tick(old(s[src..]), Dictionary(table)))
    {
      hide StringCore, IsTable, Dictionary;
      StringCoreClean(s[src..], '`', 1);
      next := ParseTick();
    }

    /** `(*char_parse_map[ch])(sf)`. White space fills no token. */
    method Dispatch() returns (next: nat)
      requires Ready()
      modifies this
      ensures if old(CharParseMap(s[src])) == ParseWhite then next == old(src) + 1 && unchanged(this)
              else Scanned(next, ScanAt(s, old(src), old(flags), Dictionary(table)))
    {
      hide IsTable, Dictionary, Scanned, StringCore, Word, Number, MoneyTag, Money, EString, UString, QStringCore,
           NqString, DigitString, Tick, Var, BWord, Operator2, Backslash, Slash, Dash, Hash, One;
      DispatchScan(s, src, flags, Dictionary(table));
      match CharParseMap(s[src])
      case ParseWhite => next := src + 1;
      case ParseOperator1 => next := ParseOperator1();
      case ParseOperator2 => next := ParseOperator2();
      case ParseOther => next := ParseOther();
      case ParseChar => next := ParseChar();
      case ParseHash => next := ParseHash();
      case ParseDash => next := ParseDash();
      case ParseSlash => next := ParseSlash();
      case ParseBackslash => next := ParseBackslash();
      case ParseEString => next := ParseEString();
      case ParseUString => next := ParseUString();
      case ParseQString => next := ParseQStringCore(0);
      case ParseNqString => next := ParseNqString();
      case ParseBString => next := ParseDigitString(BINARY_DIGITS);
      case ParseXString => next := ParseDigitString(HEX_DIGITS);
      case ParseBWord => next := ParseBWord();
      case ParseWord => next := ParseWord();
      case ParseVar => next := ParseVar();
      case ParseMoney => next := ParseMoney();
      case ParseNumber => next := ParseNumber();
      case ParseString => next := DispatchString();
      case ParseTick => next := DispatchTick();
    }

    /** The first token in a quoted context: the string the input is taken to start in. */
    method OpenSimulated()
      requires Ready() && src == 0 && flags.Quoted()
      modifies this
      ensures Valid() && flags == old(flags) && folds == old(folds) && fingerprint == old(fingerprint)
      ensures NextToken(old(TheJob()), old(TheCursor())) == Found(TheCursor(), current)
    {
      hide IsTable, Dictionary, ScanAt, StringCore, Spans;
      StringCoreSound(s, flags.Delim(), 0);
      StringCoreClean(s, flags.Delim(), 0);
      assert s[0..] == s;
      src := ParseStringCore(0, flags.Delim(), 0);
      tokens := tokens + 1;
    }

    /** One turn of the scanning loop: a scanner call that yields a token or skips a byte. */
    method ScanOnce() returns (found: bool)
      requires Ready()
      modifies this
      ensures Valid() && flags == old(flags) && folds == old(folds) && fingerprint == old(fingerprint)
      ensures Advance(old(TheJob()), old(TheCursor())) ==
        if found then Found(TheCursor(), current) else Advance(old(TheJob()), TheCursor())
      ensures !found ==> current == CLEAR && src > old(src)
    {
      hide IsTable, Dictionary, ScanAt, Spans;
      ScanFollows(TheJob(), TheCursor());
      ScanSound(s, src, flags, Dictionary(table));
      var next := Dispatch();
      src := next;
      found := current.typ != NUL;
      if found {
        tokens := tokens + 1;
      }
    }

    /** `libinjection_sqli_tokenize`. */
    method Tokenize() returns (more: bool)
      requires Valid()
      modifies this
      ensures Valid() && flags == old(flags) && folds == old(folds) && fingerprint == old(fingerprint)
      ensures match NextToken(old(TheJob()), old(TheCursor()))
        case Found(c, t) => more && TheCursor() == c && current == t
        case Exhausted(c) => !more && TheCursor() == c && current == if s == [] then old(current) else CLEAR
    {
      hide IsTable, Dictionary, Advance, StringCore, Spans;
      if |s| == 0 {
        return false;
      }
      current := CLEAR;
      if src == 0 && (flags.quoteSingle || flags.quoteDouble) {
        OpenSimulated();
        return true;
      }
      while src < |s|
        invariant Valid() && current == CLEAR
        invariant flags == old(flags) && folds == old(folds) && fingerprint == old(fingerprint)
        invariant Advance(old(TheJob()), TheCursor()) == Advance(old(TheJob()), old(TheCursor()))
        decreases |s| - src
      {
        var found := ScanOnce();
        if found {
          return true;
        }
      }
      return false;
    }

    /** The engine and the loop variables as one value. */
    ghost function TheFold(pos: nat, left: nat, more: bool, comment: Token): Folding
      reads this, vec
    {
      Folding(TheCursor(), vec[..], pos, left, more, comment, folds)
    }

    /** One turn of the token loops in fold: the next token goes to slot pos. */
    method FetchToken(pos: nat, ghost left: nat, comment: Token)
      returns (pos': nat, more: bool, comment': Token)
      requires Valid() && left <= pos <= MAX_TOKENS
      modifies this, vec
      ensures Valid() && flags == old(flags) && fingerprint == old(fingerprint)
      ensures TheFold(pos', left, more, comment') == Fetch(old(TheJob()), old(TheFold(pos, left, true, comment)))
    {
      hide NextToken, IsTable, Dictionary, Spans;
      pos', comment' := pos, comment;
      more := Tokenize();
      if |s| > 0 {
        vec[pos] := current;
      }
      if more {
        if current.typ == COMMENT {
          comment' := current;
        } else {
          comment' := comment.(typ := NUL);
          pos' := pos + 1;
        }
      }
    }

    /** One of the two token loops of fold: read until n tokens are held beyond `left`, the
        window is full, or the input is used up. */
    method FillWindow(pos0: nat, left: nat, more0: bool, comment0: Token, n: nat)
      returns (pos: nat, more: bool, comment: Token)
      requires Valid() && left <= pos0 <= MAX_TOKENS + 1
      modifies this, vec
      ensures Valid() && flags == old(flags) && fingerprint == old(fingerprint)
      ensures TheFold(pos, left, more, comment) == Fill(old(TheJob()), old(TheFold(pos0, left, more0, comment0)), n)
    {
      hide Fetch, IsTable, Dictionary, Precedes;
      pos, more, comment := pos0, more0, comment0;
      ghost var job := TheJob();
      while more && pos <= MAX_TOKENS && pos - left < n
        invariant Valid() && flags == old(flags) && fingerprint == old(fingerprint)
        invariant left <= pos <= MAX_TOKENS + 1
        invariant Fill(job, TheFold(pos, left, more, comment), n)
               == Fill(job, old(TheFold(pos0, left, more0, comment0)), n)
        decreases Potential(job, TheFold(pos, left, more, comment))
      {
        FetchFacts(job, TheFold(pos, left, more, comment));
        pos, more, comment := FetchToken(pos, left, comment);
      }
    }

    /** Retype, copy or merge tokens of the window, in place. */
    method EditWindow(e: Edit, left: nat)
      requires Valid() && left + 2 < WINDOW
      modifies vec
      ensures vec[..] == Edited(old(vec[..]), left, e)
    {
      match e {
        case Leave =>
        case RetypeLeft(t) => vec[left] := vec[left].(typ := t);
        case RetypeRight(t) => vec[left + 1] := vec[left + 1].(typ := t);
        case RightOntoLeft => vec[left] := vec[left + 1];
        case ThirdOntoSecond => vec[left + 1] := vec[left + 2];
        case Merge(t, v) => vec[left] := vec[left].Assign(t, vec[left].pos, v);
      }
    }

    /** Carry out a ruling on the window, in place. */
    method Rule(r: Ruling, pos0: nat, left0: nat, ghost more: bool, ghost comment: Token)
      returns (pos: nat, left: nat)
      requires Valid() && left0 + 2 < WINDOW && r.drop <= pos0
      modifies this`folds, vec
      ensures TheFold(pos, left, more, comment) == Apply(old(TheFold(pos0, left0, more, comment)), r)
    {
      hide IsTable, Dictionary, Edited;
      EditWindow(r.edit, left0);
      pos := pos0 - r.drop;
      folds := folds + r.folds;
      left := left0;
      match r.retreat {
        case Stay =>
        case Back => if left > 0 { left := left - 1; }
        case Restart => left := 0;
      }
    }

    /** The special cases for five tokens. */
    method SqueezeWindow(pos0: nat, left0: nat, ghost more: bool, ghost comment: Token)
      returns (pos: nat, left: nat)
      requires Valid()
      modifies vec
      ensures TheFold(pos, left, more, comment) == Squeeze(old(TheFold(pos0, left0, more, comment)))
    {
      pos, left := pos0, left0;
      if pos >= MAX_TOKENS && Collapses(vec[0].typ, vec[1].typ, vec[2].typ, vec[3].typ, vec[4].typ) {
        if pos > MAX_TOKENS {
          vec[1] := vec[MAX_TOKENS];
          pos := 2;
          left := 0;
        } else {
          pos := 1;
          left := 0;
        }
      }
    }

    /** Append a trailing comment and cap the number of tokens. */
    method FinishWindow(pos: nat, ghost left0: nat, ghost more: bool, comment: Token) returns (n: nat)
      requires Valid() && pos <= MAX_TOKENS + 1
      modifies vec
      ensures Outcome(TheCursor(), vec[..], folds, n) == Finish(old(TheFold(pos, left0, more, comment)))
    {
      var left := pos;
      if left < MAX_TOKENS && comment.typ == COMMENT {
        vec[left] := comment;
        left := left + 1;
      }
      if left > MAX_TOKENS {
        left := MAX_TOKENS;
      }
      n := left;
    }

    /** The round once the pair rules have passed. */
    method TripleRound(pos0: nat, left0: nat, ghost more: bool, ghost comment: Token)
      returns (pos: nat, left: nat)
      requires Valid() && left0 <= pos0 <= MAX_TOKENS + 1
      modifies this`folds, vec
      ensures TripleStage(old(TheFold(pos0, left0, more, comment))) == Next(TheFold(pos, left, more, comment))
    {
      hide TripleRule, IsTable, Dictionary, Edited;
      if pos0 - left0 < 3 {
        return pos0, pos0;
      }
      var a, b, c := vec[left0].Lex(), vec[left0 + 1].Lex(), vec[left0 + 2].Lex();
      var r := TripleRule(a, b, c);
      TripleRuleShape(a, b, c);
      pos, left := Rule(r, pos0, left0, more, comment);
      if r.control != Again {
        left := left + 1;
      }
    }

    /** The round once two tokens stand at left. */
    method PairRound(pos0: nat, left0: nat, more0: bool, comment0: Token)
      returns (done: bool, n: nat, pos: nat, left: nat, more: bool, comment: Token)
      requires Valid() && left0 + 2 <= pos0 <= MAX_TOKENS + 1
      modifies this, vec
      ensures Valid() && flags == old(flags) && fingerprint == old(fingerprint)
      ensures match PairStage(old(TheJob()), old(TheFold(pos0, left0, more0, comment0)))
        case Next(f) => !done && TheFold(pos, left, more, comment) == f
        case Done(o) => done && Outcome(TheCursor(), vec[..], folds, n) == o
    {
      hide Fill, PairRule, TripleStage, IsTable, Dictionary, Edited;
      done, n, more, comment := false, 0, more0, comment0;
      var a, b := vec[left0].Lex(), vec[left0 + 1].Lex();
      var r := PairRule(Dictionary(table), a, b);
      PairRuleShape(Dictionary(table), a, b);
      pos, left := Rule(r, pos0, left0, more, comment);
      match r.control {
        case Again =>
        case Abort =>
          done, n := true, left0 + 2;
        case GoOn =>
          pos, more, comment := FillWindow(pos, left, more, comment, 3);
          pos, left := TripleRound(pos, left, more, comment);
      }
    }

    /** One round of the folding loop. If it is the last, n tokens are returned. */
    method FoldRound(pos0: nat, left0: nat, more0: bool, comment0: Token)
      returns (done: bool, n: nat, pos: nat, left: nat, more: bool, comment: Token)
      requires Valid() && left0 <= pos0 <= MAX_TOKENS + 1
      modifies this, vec
      ensures Valid() && flags == old(flags) && fingerprint == old(fingerprint)
      ensures match Step(old(TheJob()), old(TheFold(pos0, left0, more0, comment0)))
        case Next(f) => !done && TheFold(pos, left, more, comment) == f
        case Done(o) => done && Outcome(TheCursor(), vec[..], folds, n) == o
    {
      hide Fill, Squeeze, PairStage, IsTable, Dictionary, Finish;
      done, n, more, comment := false, 0, more0, comment0;
      pos, left := SqueezeWindow(pos0, left0, more0, comment0);
      SqueezeBounds(old(TheJob()), old(TheFold(pos0, left0, more0, comment0)));
      if !more || left >= MAX_TOKENS {
        n := FinishWindow(pos, left, more, comment);
        done := true;
        return;
      }
      pos, more, comment := FillWindow(pos, left, more, comment, 2);
      if pos - left < 2 {
        left := pos;
        return;
      }
      done, n, pos, left, more, comment := PairRound(pos, left, more, comment);
    }

    /** `libinjection_sqli_fold`. */
    method Fold() returns (n: nat)
      requires Valid()
      modifies this, vec
      ensures Valid() && flags == old(flags) && fingerprint == old(fingerprint)
      ensures Outcome(TheCursor(), vec[..], folds, n)
           == FoldAll(old(TheJob()), old(TheCursor()), old(vec[..]), old(folds))
    {
      hide NextToken, Step, Rank, IsTable, Dictionary, Skippable;
      ghost var job := TheJob();
      var more := true;
      while more
        invariant Valid() && flags == old(flags) && fingerprint == old(fingerprint)
        invariant folds == old(folds)
        invariant vec[..] == old(vec[..])[0 := vec[0]]
        invariant more ==> FirstToken(job, TheCursor()) == FirstToken(job, old(TheCursor()))
        invariant !more ==> FirstToken(job, old(TheCursor())) == Exhausted(TheCursor())
        invariant !more || s == [] ==> vec[0] == if s == [] then old(vec[0]) else CLEAR
        decreases more, |s| - src
      {
        more := Tokenize();
        if |s| > 0 {
          vec[0] := current;
        }
        if !Skippable(current) {
          break;
        }
      }
      assert vec[..] == old(vec[..])[0 := vec[0]];
      assert s == [] ==> vec[..] == old(vec[..]);
      if !more {
        return 0;
      }
      var pos: nat, left: nat, comment := 1, 0, CLEAR;
      var done := false;
      n := 0;
      ghost var start := TheFold(1, 0, true, CLEAR);
      while !done
        invariant Valid() && flags == old(flags) && fingerprint == old(fingerprint)
        invariant 0 <= left && 0 <= pos && (!done ==> left <= pos <= MAX_TOKENS + 1)
        invariant !done ==> Run(job, TheFold(pos, left, more, comment)) == Run(job, start)
        invariant done ==> Outcome(TheCursor(), vec[..], folds, n) == Run(job, start)
        decreases !done, if done then 0 else Rank(job, TheFold(pos, left, more, comment))
      {
        StepInv(job, TheFold(pos, left, more, comment));
        done, n, pos, left, more, comment := FoldRound(pos, left, more, comment);
      }
    }

    /** `libinjection_sqli_init` with the default flags. */
    constructor (s: bytes, table: seq<Keyword>)
      requires IsTable(table)
      ensures Valid() && this.s == s && this.table == table && fresh(vec)
      ensures flags == NONE_ANSI && TheCursor() == Tokenizer.START && folds == 0 && fingerprint == []
      ensures vec[..] == EMPTY_WINDOW
    {
      this.s, this.table := s, table;
      vec := new Token[WINDOW](_ => CLEAR);
      flags, current, fingerprint := NONE_ANSI, CLEAR, [];
      src, ddx, hash, tokens, folds := 0, 0, 0, 0, 0;
    }

    /** `libinjection_sqli_reset`: everything but the input and the dictionary starts anew. */
    method Reset(newFlags: Flags)
      requires Valid()
      modifies this, vec
      ensures Valid() && flags == newFlags.OrDefault()
      ensures TheCursor() == Tokenizer.START && folds == 0 && fingerprint == [] && vec[..] == EMPTY_WINDOW
    {
      forall i | 0 <= i < vec.Length { vec[i] := CLEAR; }
      flags, current, fingerprint := newFlags.OrDefault(), CLEAR, [];
      src, ddx, hash, tokens, folds := 0, 0, 0, 0, 0;
    }

    /** What the last pass left behind. */
    ghost function TheParsed(): Parsed
      reads this, vec
    {
      Parsed(TheCursor(), vec[..], folds, fingerprint)
    }

    /** The types of the first n tokens of the window become the fingerprint. */
    method CollectTypes(n: nat)
      requires Valid() && n <= WINDOW && fingerprint == []
      modifies this`fingerprint
      ensures fingerprint == Types(vec[..], n)
    {
      var i := 0;
      while i < n
        invariant i <= n && fingerprint == Types(vec[..], i)
      {
        fingerprint := fingerprint + [vec[i].typ];
        i := i + 1;
      }
    }

    /** `libinjection_sqli_fingerprint`: one pass, which depends on nothing earlier. */
    method MakeFingerprint(newFlags: Flags)
      requires Valid()
      modifies this, vec
      ensures Valid() && flags == newFlags.OrDefault()
      ensures TheParsed() == Fingerprint(Job(s, newFlags.OrDefault(), Dictionary(table)))
    {
      hide FoldAll, IsTable, Dictionary, IsTickComment;
      Reset(newFlags);
      ghost var o := FoldAll(TheJob(), Tokenizer.START, EMPTY_WINDOW, 0);
      var n := Fold();
      if n > 2 && IsTickComment(vec[n - 1]) {
        vec[n - 1] := vec[n - 1].(typ := COMMENT);
      }
      assert vec[..] == Unmasked(o.w, n);
      CollectTypes(n);
      if EVIL in fingerprint {
        fingerprint := [EVIL];
        vec[0] := vec[0].(typ := EVIL, val := [EVIL]);
        vec[1] := vec[1].(typ := NUL);
      }
    }

    /** `libinjection_sqli_blacklist`. */
    method IsBlacklisted() returns (known: bool)
      requires Valid()
      ensures known == Blacklisted(table, fingerprint)
    {
      hide IsTable;
      if |fingerprint| < 1 {
        return false;
      }
      var fp2: bytes := ['0'];
      var i := 0;
      while i < |fingerprint|
        invariant i <= |fingerprint| && fp2 == ['0'] + Upper(fingerprint[..i])
      {
        var ch := fingerprint[i];
        if 'a' <= ch <= 'z' {
          ch := ch - ' ';
        }
        UpperSnoc(fingerprint[..i], fingerprint[i]);
        assert fingerprint[..i + 1] == fingerprint[..i] + [fingerprint[i]];
        fp2 := fp2 + [ch];
        i := i + 1;
      }
      assert fingerprint[..|fingerprint|] == fingerprint;
      UpperTwice(fingerprint);
      var typ := BsearchKeywordType(fp2, table);
      known := typ == FINGERPRINT;
    }

    method IsPairAttack() returns (attack: bool)
      requires Valid() && Readable(s, TheParsed()) && |fingerprint| == 2
      ensures attack == PairIsAttack(s, TheParsed())
    {
      hide IsTable, Dictionary;
      if fingerprint[1] == UNION {
        return tokens != 2;
      }
      if vec[1].ValAt(0) == '#' {
        return false;
      }
      if vec[0].typ == BAREWORD && vec[1].typ == COMMENT && vec[1].ValAt(0) != '/' {
        return false;
      }
      if vec[0].typ == NUMBER && vec[1].typ == COMMENT && vec[1].ValAt(0) == '/' {
        return true;
      }
      if vec[0].typ == NUMBER && vec[1].typ == COMMENT {
        if tokens > 2 {
          return true;
        }
        var len := |vec[0].val|;
        var ch := s[len];
        if Signed(ch) <= 32 {
          return true;
        }
        if ch == '/' && s[len + 1] == '*' {
          return true;
        }
        if ch == '-' && s[len + 1] == '-' {
          return true;
        }
        return false;
      }
      if |vec[1].val| > 2 && vec[1].val[0] == '-' {
        return false;
      }
      return true;
    }

    method IsTripleAttack() returns (attack: bool)
      requires Valid() && |fingerprint| == 3
      ensures attack == TripleIsAttack(TheParsed())
    {
      hide IsTable, Dictionary;
      if fingerprint == "sos" || fingerprint == "s&s" {
        if vec[0].strOpen == NUL && vec[2].strClose == NUL && vec[0].strClose == vec[2].strOpen {
          return true;
        }
        if tokens == 3 {
          return false;
        }
        return false;
      } else if fingerprint == "s&n" || fingerprint == "n&1" || fingerprint == "1&1" || fingerprint == "1&v"
                || fingerprint == "1&s" {
        if tokens == 3 {
          return false;
        }
      } else if vec[1].typ == KEYWORD {
        if |vec[1].val| < 5 {
          return false;
        }
        CompareZero("INTO", vec[1].val[..4]);
        var order := CStrCaseCmp("INTO", vec[1].val[..4]);
        if order != 0 {
          return false;
        }
      }
      return true;
    }

    /** `libinjection_sqli_not_whitelist`. */
    method IsNotWhitelisted() returns (attack: bool)
      requires Valid() && Readable(s, TheParsed())
      ensures attack == NotWhitelisted(s, TheParsed())
    {
      hide IsTable, Dictionary, FirstAt;
      var tlen := |fingerprint|;
      if tlen > 1 && fingerprint[tlen - 1] == COMMENT {
        var at := MemMem(SP_PASSWORD, s, 0);
        if at <= |s| {
          return true;
        }
      }
      if tlen == 2 {
        attack := IsPairAttack();
      } else if tlen == 3 {
        attack := IsTripleAttack();
      } else {
        attack := true;
      }
    }

    /** `libinjection_sqli_check_fingerprint`. */
    method CheckFingerprint() returns (attack: bool)
      requires Valid() && Readable(s, TheParsed())
      ensures attack == IsAttack(table, s, TheParsed())
    {
      hide IsTable, Dictionary, Blacklisted, NotWhitelisted;
      var known := IsBlacklisted();
      if !known {
        return false;
      }
      attack := IsNotWhitelisted();
    }

    /** A pass and its verdict. */
    method Try(newFlags: Flags) returns (attack: bool)
      requires Valid() && newFlags == newFlags.OrDefault()
      modifies this, vec
      ensures Valid() && TheParsed() == Fingerprint(Job(s, newFlags, Dictionary(table)))
      ensures attack == Detects(table, s, newFlags)
    {
      hide Fingerprint, IsTable, Readable, Dictionary;
      MakeFingerprint(newFlags);
      FilterReadsInside(Job(s, newFlags, Dictionary(table)));
      attack := CheckFingerprint();
    }

    /** `libinjection_is_sqli`. The MySQL passes run only where they can make a difference, and
        every pass works on the state the one before left behind; the answer is nevertheless
        whether some context that applies detects an attack. */
    method DetectSqli() returns (attack: bool)
      requires Valid()
      modifies this, vec
      ensures attack <==> exists f: Flags :: FilterLaws.Applies(s, f) && Detects(table, s, f)
    {
      hide Fingerprint, IsTable, Dictionary, IsAttack, FilterLaws.Applies;
      FilterLaws.ContextsTried(table, s);
      if |s| == 0 {
        EmptyIsHarmless(table, NONE_ANSI);
        EmptyIsHarmless(table, NONE_MYSQL);
        return false;
      }
      ReparseLosesNothing(Job(s, NONE_ANSI, Dictionary(table)), Job(s, NONE_MYSQL, Dictionary(table)));
      attack := Try(NONE_ANSI);
      if attack {
        return true;
      } else if ddx != 0 || hash != 0 {
        attack := Try(NONE_MYSQL);
        if attack {
          return true;
        }
      }
      assert !Detects(table, s, NONE_ANSI) && !Detects(table, s, NONE_MYSQL);
      var single := MemChr(s, 0, '\'');
      if single < |s| {
        ReparseLosesNothing(Job(s, SINGLE_ANSI, Dictionary(table)), Job(s, SINGLE_MYSQL, Dictionary(table)));
        attack := Try(SINGLE_ANSI);
        if attack {
          return true;
        } else if ddx != 0 || hash != 0 {
          attack := Try(SINGLE_MYSQL);
          if attack {
            return true;
          }
        }
      }
      var double := MemChr(s, 0, '"');
      if double < |s| {
        attack := Try(DOUBLE_MYSQL);
        if attack {
          return true;
        }
      }
      return false;
    }
  }
}
