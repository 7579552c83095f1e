/** The keyword table and its binary search. */
module Keywords {
  import opened Bytes
  import opened Tokens

  datatype Keyword = Keyword(word: bytes, typ: byte)

  predicate IsWord(w: bytes) { forall i :: 0 <= i < |w| ==> 0 < w[i] as int < 128 }

  /** Dictionary order of words, as `strcmp` sees it. */
  predicate Precedes(a: bytes, b: bytes) {
    b != [] && (a == [] || a[0] < b[0] || (a[0] == b[0] && Precedes(a[1..], b[1..])))
  }

  /** A keyword table: not empty, plain ASCII words, strictly sorted. */
  predicate IsTable(table: seq<Keyword>) {
    && table != []
    && (forall i :: 0 <= i < |table| ==> IsWord(table[i].word))
    && (forall i, j :: 0 <= i < j < |table| ==> Precedes(table[i].word, table[j].word))
  }

  /** The type the table gives to a word, NUL if it has no such entry. */
  function TypeOf(table: seq<Keyword>, word: bytes): byte {
    if table == [] then NUL
    else if table[0].word == word then table[0].typ
    else TypeOf(table[1..], word)
  }

  /** The default dictionary: table entries, ignoring ASCII case. */
  function Dictionary(table: seq<Keyword>): Lookup {
    (kind: LookupKind, key: bytes) => TypeOf(table, Upper(key))
  }

  /** The value `cstrcasecmp` returns: word against the upper-cased key, bytes as signed
      characters, the end of the word read as NUL. */
  function Compare(word: bytes, key: bytes): int {
    if key == [] then if word == [] then 0 else 1
    else
      var w := if word == [] then NUL else word[0];
      var k := UpperByte(key[0]);
      if w != k then Signed(w) - Signed(k)
      else if word == [] then -1
      else Compare(word[1..], key[1..])
  }

  /** `cstrcasecmp`. */
  method CStrCaseCmp(word: bytes, key: bytes) returns (order: int)
    requires IsWord(word)
    ensures order == Compare(word, key)
  {
    var i := 0;
    while i < |key|
      invariant i <= |key| && i <= |word|
      invariant Compare(word, key) == Compare(word[i..], key[i..])
    {
      var a := if i < |word| then word[i] else NUL;
      var b := key[i];
      if 'a' <= b <= 'z' {
        b := b - ' ';
      }
      if a != b {
        return Signed(a) - Signed(b);
      } else if a == NUL {
        return -1;
      }
      i := i + 1;
    }
    order := if i == |word| then 0 else 1;
  }

  /** The comparison is 0 exactly for the upper-cased key itself, whatever bytes it has. */
  lemma {:induction false} CompareZero(word: bytes, key: bytes)
    requires IsWord(word)
    ensures Compare(word, key) == 0 <==> word == Upper(key)
  {
    if key == [] || word == [] {
    } else {
      CompareZero(word[1..], key[1..]);
      assert Upper(key) == [UpperByte(key[0])] + Upper(key[1..]);
      assert word == [word[0]] + word[1..];
    }
  }

  /** Along the dictionary order the sign of the comparison only grows, also for keys with
      NUL or high-bit bytes, which compare as negative characters. */
  lemma {:induction false} CompareMonotone(a: bytes, b: bytes, key: bytes)
    requires IsWord(a) && IsWord(b) && Precedes(a, b)
    ensures Compare(b, key) <= 0 ==> Compare(a, key) < 0
    ensures Compare(a, key) >= 0 ==> Compare(b, key) > 0
  {
    if key == [] || a == [] || a[0] != b[0] {
    } else {
      CompareMonotone(a[1..], b[1..], key[1..]);
    }
  }

  lemma {:induction false} Irreflexive(a: bytes, b: bytes)
    requires Precedes(a, b)
    ensures a != b
  {
    if a == [] || a[0] != b[0] {
    } else {
      Irreflexive(a[1..], b[1..]);
    }
  }

  /** In a sorted table a word has at most one entry. */
  lemma {:induction false} TypeAt(table: seq<Keyword>, i: nat)
    requires IsTable(table) && i < |table|
    ensures TypeOf(table, table[i].word) == table[i].typ
  {
    hide Upper;
    if i == 0 {
    } else {
      Irreflexive(table[0].word, table[i].word);
      TypeAt(table[1..], i - 1);
    }
  }

  lemma {:induction false} TypeAbsent(table: seq<Keyword>, word: bytes)
    requires forall i :: 0 <= i < |table| ==> table[i].word != word
    ensures TypeOf(table, word) == NUL
  {
    if table == [] {
    } else {
      TypeAbsent(table[1..], word);
    }
  }

  /** The dictionary gives a word the type of the entry that is the word in upper case, for
      operators as for words, and none if there is no such entry. */
  lemma DictionaryMeans(table: seq<Keyword>, kind: LookupKind, key: bytes)
    requires IsTable(table)
    ensures forall i :: 0 <= i < |table| && table[i].word == Upper(key) ==> Dictionary(table)(kind, key) == table[i].typ
    ensures (forall i :: 0 <= i < |table| ==> table[i].word != Upper(key)) ==> Dictionary(table)(kind, key) as int == 0
  {
    hide IsTable, Upper;
    forall i | 0 <= i < |table| && table[i].word == Upper(key) ensures TypeOf(table, Upper(key)) == table[i].typ {
      TypeAt(table, i);
    }
    if forall i :: 0 <= i < |table| ==> table[i].word != Upper(key) { TypeAbsent(table, Upper(key)); }
  }

  /** `bsearch_keyword_type`. */
  method BsearchKeywordType(key: bytes, table: seq<Keyword>) returns (typ: byte)
    requires IsTable(table)
    ensures typ == TypeOf(table, Upper(key))
  {
    var left := 0;
    var right := |table| - 1;
    while left < right
      invariant 0 <= left <= right < |table|
      invariant forall i :: 0 <= i < left ==> Compare(table[i].word, key) < 0
      invariant forall i :: right < i < |table| ==> Compare(table[i].word, key) > 0
    {
      var pos := (left + right) / 2;
      var order := CStrCaseCmp(table[pos].word, key);
      if order < 0 {
        forall i | 0 <= i < pos ensures Compare(table[i].word, key) < 0 {
          CompareMonotone(table[i].word, table[pos].word, key);
        }
        left := pos + 1;
      } else {
        forall i | pos < i < |table| ensures Compare(table[i].word, key) > 0 {
          CompareMonotone(table[pos].word, table[i].word, key);
        }
        right := pos;
      }
    }
    var order := CStrCaseCmp(table[left].word, key);
    CompareZero(table[left].word, key);
    if order == 0 {
      TypeAt(table, left);
      typ := table[left].typ;
    } else {
      forall i | 0 <= i < |table| ensures table[i].word != Upper(key) {
        CompareZero(table[i].word, key);
      }
      TypeAbsent(table, Upper(key));
      typ := NUL;
    }
  }
}
