/** Facts every scanner call satisfies: progress, bounds, and honest token values. */
module ScannerFacts {
  import opened Bytes
  import opened Tokens
  import opened Scanners

  ghost predicate Spans(t: Token, r: bytes, end: nat)
  {
    && |t.val| < TOKEN_SIZE
    && t.pos + |t.val| <= end <= |r|
    && t.val == r[t.pos..t.pos + |t.val|]
  }

  /** The call consumes between 1 and |r| bytes; the token lies in the consumed part and
      its value is the input there. */
  ghost predicate Sound(sc: Scan, r: bytes) {
    && 1 <= sc.len <= |r|
    && Spans(sc.tok, r, sc.len)
  }

  /** A byte a word can begin with. */
  predicate StartsWord(c: byte) {
    && c >= 'A' && c != '[' && c != '\\' && c != ']' && c != '^' && c != '`'
    && c != '{' && c != '|' && c != '}' && c != '~' && c != '\U{7F}' && c != '\U{A0}'
  }

  lemma WordStartIsNoStop(c: byte)
    requires StartsWord(c) || c == '$'
    ensures !Accepts(WORD_STOPS, c)
  {
  }

  /** The scanners that fall back on parse_word, the one for '$' excepted. */
  predicate TakesWords(f: Parser) {
    f.ParseWord? || f.ParseBString? || f.ParseXString? || f.ParseEString? || f.ParseUString?
    || f.ParseQString? || f.ParseNqString?
  }

  /** Whoever dispatches to parse_word gives it at least one byte to take. */
  lemma WordDispatch(c: byte)
    requires TakesWords(CharParseMap(c))
    ensures StartsWord(c)
  {
  }

  /** A token holding text, which is the input from `at` to inside the consumed part. */
  lemma TextSound(sc: Scan, r: bytes, text: bytes)
    requires 1 <= sc.len <= |r| && sc.tok.val == Cut(text)
    requires sc.tok.pos + |text| <= sc.len && text == r[sc.tok.pos..sc.tok.pos + |text|]
    ensures Sound(sc, r)
  {
    var t := sc.tok;
    assert t.val == text[..|t.val|] == r[t.pos..t.pos + |t.val|];
  }

  /** A token made of the first len bytes. */
  lemma PlainSound(len: nat, typ: byte, r: bytes)
    requires 1 <= len <= |r|
    ensures Sound(Plain(len, typ, 0, r[..len]), r)
  {
  }

  lemma WordSound(r: bytes, lookup: Lookup)
    requires r != [] && (StartsWord(r[0]) || r[0] == '$')
    ensures Sound(Word(r, lookup), r) && Word(r, lookup).tok.typ != NUL
  {
    WordStartIsNoStop(r[0]);
  }

  lemma StringCoreSound(r: bytes, delim: byte, offset: nat)
    requires r != [] && offset <= |r|
    ensures Sound(StringCore(r, delim, offset), r) && StringCore(r, delim, offset).tok.typ == STRING
  {
  }

  /** A sound call d bytes further on is sound from here. */
  lemma SoundMoved(sc: Scan, r: bytes, d: nat)
    requires d <= |r| && Sound(sc, r[d..])
    ensures Sound(sc.(len := d + sc.len, tok := sc.tok.Moved(d)), r)
  {
    var t := sc.tok;
    assert r[d..][t.pos..t.pos + |t.val|] == r[d + t.pos..d + t.pos + |t.val|];
  }

  lemma UStringSound(r: bytes, lookup: Lookup)
    requires r != [] && StartsWord(r[0])
    ensures Sound(UString(r, lookup), r) && UString(r, lookup).tok.typ != NUL
  {
    if |r| > 2 && r[1] == '&' && r[2] == '\'' {
      StringCoreSound(r[2..], '\'', 1);
      SoundMoved(StringCore(r[2..], '\'', 1), r, 2);
    } else {
      WordSound(r, lookup);
    }
  }

  lemma EStringSound(r: bytes, lookup: Lookup)
    requires r != [] && StartsWord(r[0])
    ensures Sound(EString(r, lookup), r) && EString(r, lookup).tok.typ != NUL
  {
    if |r| <= 2 || r[1] != '\'' { WordSound(r, lookup); } else { StringCoreSound(r, '\'', 2); }
  }

  lemma QStringSound(r: bytes, offset: nat, lookup: Lookup)
    requires r != [] && StartsWord(r[0]) && offset <= 1
    ensures Sound(QStringCore(r, offset, lookup), r) && QStringCore(r, offset, lookup).tok.typ != NUL
  {
    hide Word, IndexOf2, Sound, Cut, Signed, QClose;
    WordSound(r, lookup);
    var q := r[offset..];
    var sc := QStringCore(r, offset, lookup);
    if |q| > 2 && (q[0] == 'q' || q[0] == 'Q') && q[1] == '\'' && Signed(q[2]) >= 33 {
      var body := q[3..];
      var end := IndexOf2(body, QClose(q[2]), '\'');
      assert body[..end] == r[offset + 3..offset + 3 + end];
      if end == |body| { assert body[..end] == body; }
      TextSound(sc, r, body[..end]);
    }
  }

  lemma DigitStringSound(r: bytes, digits: string, lookup: Lookup)
    requires r != [] && StartsWord(r[0])
    ensures Sound(DigitString(r, digits, lookup), r) && DigitString(r, digits, lookup).tok.typ != NUL
  {
    WordSound(r, lookup);
  }

  lemma TickSound(r: bytes, lookup: Lookup)
    requires r != []
    ensures Sound(Tick(r, lookup), r) && Tick(r, lookup).tok.typ in {FUNCTION, BAREWORD}
  {
    StringCoreSound(r, '`', 1);
  }

  /** Soundness is a matter of length, position and value. */
  lemma SameText(sc: Scan, sd: Scan, r: bytes)
    requires Sound(sd, r) && sc.len == sd.len && sc.tok.pos == sd.tok.pos && sc.tok.val == sd.tok.val
    ensures Sound(sc, r)
  {
  }

  lemma VarSound(r: bytes, lookup: Lookup)
    requires r != []
    ensures Sound(Var(r, lookup), r) && Var(r, lookup).tok.typ == VARIABLE
  {
    hide Tick, StringCore, SpanNot, Sound, Cut;
    var d := if |r| > 1 && r[1] == '@' then 2 else 1;
    var v := r[d..];
    if v != [] && (v[0] == '`' || v[0] == '\'' || v[0] == '"') {
      var sc := if v[0] == '`' then Tick(v, lookup) else StringCore(v, v[0], 1);
      TickSound(v, lookup);
      StringCoreSound(v, v[0], 1);
      SoundMoved(sc, r, d);
      SameText(Var(r, lookup), sc.(len := d + sc.len, tok := sc.tok.Moved(d)), r);
    } else {
      var n := SpanNot(v, VAR_STOPS);
      assert v[..n] == r[d..d + n];
      TextSound(Var(r, lookup), r, v[..n]);
    }
  }

  lemma MoneySound(r: bytes, lookup: Lookup)
    requires r != [] && r[0] == '$'
    ensures Sound(Money(r, lookup), r) && Money(r, lookup).tok.typ != NUL
  {
    if |r| > 1 {
      var n := Span(r[1..], MONEY_CHARS);
      if n == 0 && r[1] == '$' {
        var body := r[2..];
        var end := IndexOf2(body, '$', '$');
        TextSound(Money(r, lookup), r, body[..end]);
      } else if n == 1 && r[1] == '.' {
        WordSound(r, lookup);
      } else if n > 0 {
        PlainSound(1 + n, NUMBER, r);
      }
    }
  }

  lemma MoneyTagSound(s: bytes, p: nat)
    requires p <= |s| && OpensTag(s[p..])
    ensures Sound(MoneyTag(s, p), s[p..]) && MoneyTag(s, p).tok.typ == STRING
  {
    hide OpensTag, TagClose, Sound, Cut, Span;
    var r := s[p..];
    var t := TagLength(r);
    var at := TagClose(s, p);
    var end := if at > |s| then |s| else at;
    assert s[p + t..end] == r[t..end - p];
    if end == |s| { assert r[t..end - p] == r[t..]; }
    TextSound(MoneyTag(s, p), r, s[p + t..end]);
  }

  lemma NumberSound(r: bytes)
    requires r != [] && (IsDigit(r[0]) || r[0] == '.')
    ensures Sound(Number(r), r) && Number(r).tok.typ != NUL
  {
    PlainSound(Number(r).len, Number(r).tok.typ, r);
  }

  lemma SlashSound(r: bytes)
    requires r != []
    ensures Sound(Slash(r), r) && Slash(r).tok.typ != NUL
  {
  }

  lemma EolCommentSound(r: bytes)
    requires r != [] && r[0] != '\n'
    ensures Sound(EolComment(r), r) && EolComment(r).tok.typ == COMMENT
  {
    TextSound(EolComment(r), r, r[..IndexOf(r, '\n')]);
  }

  lemma Operator2Sound(r: bytes, lookup: Lookup)
    requires r != []
    ensures Sound(Operator2(r, lookup), r) && Operator2(r, lookup).tok.typ != NUL
  {
  }

  lemma BWordSound(r: bytes)
    requires r != []
    ensures Sound(BWord(r), r) && BWord(r).tok.typ == BAREWORD
  {
    PlainSound(BWord(r).len, BAREWORD, r);
  }

  lemma WordFamilySound(r: bytes, flags: Flags, lookup: Lookup)
    requires r != [] && TakesWords(CharParseMap(r[0]))
    ensures var sc := ScanHere(r, flags, lookup); Sound(sc, r) && sc.tok.typ != NUL
  {
    WordDispatch(r[0]);
    match CharParseMap(r[0])
    case ParseEString => EStringSound(r, lookup);
    case ParseUString => UStringSound(r, lookup);
    case ParseQString => QStringSound(r, 0, lookup);
    case ParseNqString => EStringSound(r, lookup); QStringSound(r, 1, lookup);
    case ParseBString => DigitStringSound(r, BINARY_DIGITS, lookup);
    case ParseXString => DigitStringSound(r, HEX_DIGITS, lookup);
    case _ => WordSound(r, lookup);
  }

  lemma ScanHereSound(r: bytes, flags: Flags, lookup: Lookup)
    requires r != []
    ensures var sc := ScanHere(r, flags, lookup);
      Sound(sc, r) && (if CharParseMap(r[0]) == ParseWhite then sc == White() else sc.tok.typ != NUL)
  {
    hide Word, Number, StringCore, MoneyTag, EString, UString, QStringCore, NqString, DigitString, Tick, Var,
         Money, BWord, Operator2, EolComment, Slash;
    if TakesWords(CharParseMap(r[0])) {
      WordFamilySound(r, flags, lookup);
    } else {
      match CharParseMap(r[0])
      case ParseString => StringCoreSound(r, r[0], 1);
      case ParseTick => TickSound(r, lookup);
      case ParseVar => VarSound(r, lookup);
      case ParseMoney => MoneySound(r, lookup);
      case ParseNumber => NumberSound(r);
      case ParseSlash => SlashSound(r);
      case ParseHash | ParseDash => EolCommentSound(r);
      case ParseOperator2 => Operator2Sound(r, lookup);
      case ParseBWord => BWordSound(r);
      case _ =>
    }
  }

  /** Every scanner called inside the input moves forward, stays inside the input, and
      returns a token whose value is the input at the token's position. */
  lemma ScanSound(s: bytes, p: nat, flags: Flags, lookup: Lookup)
    requires p < |s|
    ensures var sc := ScanAt(s, p, flags, lookup);
      Sound(sc, s[p..]) && (if CharParseMap(s[p]) == ParseWhite then sc == White() else sc.tok.typ != NUL)
  {
    hide MoneyTag, ScanHere, Sound, Span, Accepts, LETTERS, MONEY_CHARS;
    if OpensTag(s[p..]) { MoneyTagSound(s, p); } else { ScanHereSound(s[p..], flags, lookup); }
  }
}
