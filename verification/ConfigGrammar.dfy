/**
 What the readers of a configuration accept, as a grammar: numerals, values of each kind, whole lines and whole
 files, with no mention of the cursors and conversions that read them.
 */
module ConfigGrammar {
  import opened Decimals
  import opened ConfigText

  // ------------------------------------------------------------------
  // Numerals
  // ------------------------------------------------------------------

  /** Where the white space of a numeral ends, where its digits begin, and whether a minus stands in between. */
  datatype Numeral = Numeral(spaces: nat, from: nat, negative: bool)

  /** White space, at most one sign, digits to the end. */
  predicate Spells(s: string, m: Numeral) {
    && m.spaces <= m.from < |s| && (forall j :: 0 <= j < m.spaces ==> IsSpace(s[j]))
    && (m.from == m.spaces || (m.from == m.spaces + 1 && s[m.spaces] == if m.negative then '-' else '+'))
    && (m.negative ==> m.from > m.spaces)
    && forall j :: m.from <= j < |s| ==> IsDigit(s[j])
  }

  function Digits(s: string, m: Numeral): (d: string)
    requires Spells(s, m)
    ensures AllDigits(d)
  {
    s[m.from..]
  }

  function Size(s: string, m: Numeral): nat
    requires Spells(s, m)
  {
    ValueOf(Digits(s, m))
  }

  function Worth(s: string, m: Numeral): int
    requires Spells(s, m)
  {
    var size: int := Size(s, m);
    if m.negative then -size else size
  }

  /** The only numeral a text can spell. */
  function Parsed(s: string): Numeral {
    var i := SkipSpaces(s, 0);
    Numeral(i, i + Sign(s, i), Minus(s, i))
  }

  lemma SpellsParsed(s: string, m: Numeral)
    requires Spells(s, m)
    ensures m == Parsed(s)
  {
    assert IsDigit(s[m.from]);
    assert SkipSpaces(s, 0) == m.spaces;
  }

  lemma WholeTail(s: string, from: nat)
    requires from <= |s|
    ensures s[from..|s|] == s[from..]
  {
  }

  lemma ParsedExact(s: string, m: Numeral)
    requires m == Parsed(s)
    ensures DigitsEnd(s, m.from) == |s| && m.from < |s| <==> Spells(s, m)
    ensures Spells(s, m) ==> s[m.from..DigitsEnd(s, m.from)] == Digits(s, m)
  {
    if Spells(s, m) {
      AllDigitsEnd(s, m.from);
      WholeTail(s, m.from);
    }
  }

  /** A conversion reads the whole text exactly when the text is a numeral; it gives its value, or the nearest bound. */
  lemma SignedExact(s: string, m: Numeral)
    requires m == Parsed(s)
    ensures var r := ReadSigned(s, LONG_MIN, LONG_MAX);
            && (Entire(r, s) <==> Spells(s, m))
            && (Spells(s, m) ==>
                 var n := Worth(s, m);
                 && (r.overflow <==> n < LONG_MIN || n > LONG_MAX)
                 && r.value == if n < LONG_MIN then LONG_MIN else if n > LONG_MAX then LONG_MAX else n)
  {
    ParsedExact(s, m);
  }

  lemma UnsignedExact(s: string, m: Numeral)
    requires m == Parsed(s)
    ensures var r := ReadUnsigned(s);
            && (Entire(r, s) <==> Spells(s, m))
            && (Spells(s, m) ==>
                 var n := Size(s, m);
                 r.value == if n >= WORD then WORD - 1 else if m.negative then (WORD - n) % WORD else n)
  {
    ParsedExact(s, m);
  }

  // ------------------------------------------------------------------
  // Values
  // ------------------------------------------------------------------

  /** The bound a number out of range becomes is the one on its side. */
  predicate Clamped(n: int, low: int, high: int, r: int) {
    (n < low ==> r == low) && (n > high ==> r == high) && (low <= n <= high ==> r == n)
  }

  /** A value limited to 64 bits: too large a numeral saturates, a minus sign wraps around. */
  predicate Wrapped(size: nat, negative: bool, r: int) {
    if size >= WORD then r == WORD - 1 else if negative then r == (WORD - size) % WORD else r == size
  }

  /** The text stands for this value of its kind. */
  predicate Means(kind: Kind, s: string, m: Numeral, v: Value) {
    match kind
    case IntKey(low, high) => Spells(s, m) && low <= Worth(s, m) <= high && v == Num(Worth(s, m))
    case WideKey(low, high) => Spells(s, m) && low <= Worth(s, m) <= high && v == Num(Worth(s, m))
    case ClampedKey(low, high) => Spells(s, m) && INT_MIN <= Worth(s, m) <= INT_MAX && v.Num? && Clamped(Worth(s, m), low, high, v.n)
    case LimitKey => Spells(s, m) && s[0] != '-' && v.Num? && Wrapped(Size(s, m), m.negative, v.n)
    case TextKey => s != "" && v == Text(s)
    case DirectionKey => (s == "asc" && v == Direction(false)) || (s == "desc" && v == Direction(true))
    case ObsoleteKey => false
  }

  ghost predicate Reads(kind: Kind, s: string, v: Value) { exists m: Numeral :: Means(kind, s, m, v) }

  lemma MeansParsed(kind: Kind, s: string, v: Value)
    ensures Reads(kind, s, v) <==> Means(kind, s, Parsed(s), v)
  {
    if m: Numeral :| Means(kind, s, m, v) {
      if Spells(s, m) {
        SpellsParsed(s, m);
      }
    }
  }

  /** A text is accepted for a key exactly when it stands for a value of the key's kind, and as that value. */
  lemma ReadExact(kind: Kind, s: string, v: Value)
    requires KindOk(kind)
    ensures ReadValue(kind, s) == Accepted(v) <==> Reads(kind, s, v)
  {
    MeansParsed(kind, s, v);
    if kind.LimitKey? {
      UnsignedExact(s, Parsed(s));
    } else {
      SignedExact(s, Parsed(s));
    }
  }

  // ------------------------------------------------------------------
  // Lines
  // ------------------------------------------------------------------

  predicate BlankFrom(line: string, i: nat, k: nat) {
    i <= k <= |line| && forall j :: i <= j < k ==> line[j] == ' ' || line[j] == '\t'
  }

  /** Nothing more, the end of the line, or a comment. */
  predicate EndsAt(line: string, k: nat) {
    k <= |line| && (k == |line| || line[k] == '\n' || line[k] == '\r' || line[k] == '#' || line[k] == '\0')
  }

  predicate Unedged(s: string) {
    s != "" ==> s[0] != ' ' && s[0] != '\t' && s[|s| - 1] != ' ' && s[|s| - 1] != '\t'
  }

  predicate KeyShape(key: string) {
    && 0 < |key| <= 63 && Unedged(key) && !EndsAt(key, 0)
    && forall i :: 0 <= i < |key| ==> key[i] != '=' && key[i] != '\0'
  }

  predicate TextShape(text: string) {
    Unedged(text) && forall i :: 0 <= i < |text| ==> text[i] != '\0' && text[i] != '\n' && text[i] != '\r' && text[i] != '#'
  }

  /** Where the parts of a line begin and end. */
  datatype Marks = Marks(key: nat, keyEnd: nat, sign: nat, text: nat, textEnd: nat, end: nat)

  predicate InOrder(line: string, m: Marks) {
    m.key < m.keyEnd <= m.sign < m.text <= m.textEnd <= m.end <= |line|
  }

  /** Blanks, a key, blanks, the sign, blanks, a text, blanks, and the end. */
  predicate Shaped(line: string, m: Marks, key: string, text: string) {
    && InOrder(line, m)
    && BlankFrom(line, 0, m.key) && line[m.key..m.keyEnd] == key
    && BlankFrom(line, m.keyEnd, m.sign) && line[m.sign] == '='
    && BlankFrom(line, m.sign + 1, m.text) && line[m.text..m.textEnd] == text
    && BlankFrom(line, m.textEnd, m.end) && EndsAt(line, m.end) && (text == "" ==> m.textEnd == m.end)
    && KeyShape(key) && TextShape(text)
  }

  ghost predicate HasShape(line: string, key: string, text: string) { exists m: Marks :: Shaped(line, m, key, text) }

  lemma KeyChars(line: string, p: nat, k: nat, key: string)
    requires p < k <= |line| && line[p..k] == key && KeyShape(key)
    ensures k - p <= 63 && !Blank(line[p]) && !Stop(line[p]) && !Blank(line[k - 1])
    ensures forall j :: p <= j < k ==> line[j] != '=' && line[j] != NUL
  {
    forall j | p <= j < k ensures line[j] == key[j - p] {}
    assert line[p] == key[0] && line[k - 1] == key[|key| - 1];
  }

  lemma TextChars(line: string, v: nat, w: nat, text: string)
    requires v <= w <= |line| && line[v..w] == text && TextShape(text)
    ensures |text| == w - v && (v < w ==> !Blank(line[v]) && !Blank(line[w - 1]))
    ensures forall j :: v <= j < w ==> !Stop(line[j])
  {
    forall j | v <= j < w ensures line[j] == text[j - v] {}
    assert v < w ==> line[v] == text[0] && line[w - 1] == text[|text| - 1];
  }

  /** The scanner stops where the key and the text of a shaped line begin and end. */
  lemma ShapedMarks(line: string, m: Marks, key: string, text: string)
    requires Shaped(line, m, key, text)
    ensures Scanned(line, m)
  {
    KeyChars(line, m.key, m.keyEnd, key);
    TextChars(line, m.text, m.textEnd, text);
    KeyMarks(line, m.key, m.keyEnd, m.sign);
    TextMarks(line, m.sign + 1, m.text, m.textEnd, m.end);
  }

  lemma KeyMarks(line: string, p: nat, k: nat, eq: nat)
    requires p < k <= eq < |line| && BlankFrom(line, 0, p) && BlankFrom(line, k, eq) && line[eq] == '='
    requires !Blank(line[p]) && !Blank(line[k - 1]) && forall j :: p <= j < k ==> line[j] != '=' && line[j] != NUL
    ensures SkipBlanks(line, 0) == p && FindEquals(line, p) == eq && Rtrim(line, p, eq) == k
  {
  }

  lemma TextMarks(line: string, from: nat, v: nat, w: nat, end: nat)
    requires from <= v <= w <= end <= |line| && BlankFrom(line, from, v) && BlankFrom(line, w, end) && EndsAt(line, end)
    requires v < w ==> !Blank(line[v]) && !Blank(line[w - 1])
    requires (forall j :: v <= j < w ==> !Stop(line[j])) && (v == w ==> w == end)
    ensures SkipBlanks(line, from) == v && ValueStop(line, v) == end && Rtrim(line, v, end) == w
  {
  }

  /** These are the places the scanner stops at, and the key is acceptable. */
  predicate Scanned(line: string, m: Marks) {
    && InOrder(line, m)
    && m.key == SkipBlanks(line, 0) && !Stop(line[m.key]) && m.sign == FindEquals(line, m.key) && line[m.sign] == '='
    && m.keyEnd == Rtrim(line, m.key, m.sign) && m.keyEnd - m.key < KEY_MAX
    && m.text == SkipBlanks(line, m.sign + 1) && m.end == ValueStop(line, m.text) && m.textEnd == Rtrim(line, m.text, m.end)
  }

  lemma ScannedShape(line: string, m: Marks)
    requires Scanned(line, m)
    ensures Shaped(line, m, line[m.key..m.keyEnd], line[m.text..m.textEnd])
  {
    ScannedKey(line, m);
    ScannedText(line, m);
  }

  lemma ScannedKey(line: string, m: Marks)
    requires Scanned(line, m)
    ensures KeyShape(line[m.key..m.keyEnd]) && BlankFrom(line, 0, m.key) && BlankFrom(line, m.keyEnd, m.sign)
  {
  }

  lemma ScannedText(line: string, m: Marks)
    requires Scanned(line, m)
    ensures TextShape(line[m.text..m.textEnd]) && BlankFrom(line, m.sign + 1, m.text) && BlankFrom(line, m.textEnd, m.end)
    ensures EndsAt(line, m.end) && (m.text == m.textEnd ==> m.textEnd == m.end)
  {
    assert m.textEnd < m.end ==> Blank(line[m.textEnd]);
  }

  lemma ScannedSplits(line: string, m: Marks)
    requires Scanned(line, m)
    ensures Split(line) == if m.textEnd - m.text > 511 then TooLong else Pair(line[m.key..m.keyEnd], line[m.text..m.textEnd])
  {
  }

  lemma PairScanned(line: string) returns (m: Marks)
    requires Split(line).Pair? || Split(line).TooLong?
    ensures Scanned(line, m)
  {
    var p := SkipBlanks(line, 0);
    var eq := FindEquals(line, p);
    var v := SkipBlanks(line, eq + 1);
    var end := ValueStop(line, v);
    m := Marks(p, Rtrim(line, p, eq), eq, v, Rtrim(line, v, end), end);
  }

  /** A line gives a key and a text exactly when it has that shape and the text is short enough. */
  lemma SplitExact(line: string, key: string, text: string)
    ensures Split(line) == Pair(key, text) <==> HasShape(line, key, text) && |text| <= 511
    ensures HasShape(line, key, text) && |text| > 511 ==> Split(line) == TooLong
  {
    if m: Marks :| Shaped(line, m, key, text) {
      ShapedMarks(line, m, key, text);
      ScannedSplits(line, m);
    }
    if Split(line) == Pair(key, text) {
      var m := PairScanned(line);
      ScannedShape(line, m);
      ScannedSplits(line, m);
    }
  }

  /** A line is refused for its length exactly when it has the shape of a key and a longer text. */
  lemma TooLongExact(line: string)
    ensures Split(line) == TooLong <==> exists key: string, text: string :: HasShape(line, key, text) && |text| > 511
  {
    if key: string, text: string :| HasShape(line, key, text) && |text| > 511 {
      SplitExact(line, key, text);
    }
    if Split(line) == TooLong {
      var m := PairScanned(line);
      ScannedShape(line, m);
      ScannedSplits(line, m);
      assert HasShape(line, line[m.key..m.keyEnd], line[m.text..m.textEnd]);
    }
  }

  /** A line holds nothing exactly when it is blank or a comment. */
  lemma NothingExact(line: string)
    ensures Split(line) == Nothing <==> exists k :: 0 <= k <= |line| && BlankFrom(line, 0, k) && EndsAt(line, k)
  {
    if Split(line) == Nothing {
      assert BlankFrom(line, 0, SkipBlanks(line, 0)) && EndsAt(line, SkipBlanks(line, 0));
    }
    if k :| 0 <= k <= |line| && BlankFrom(line, 0, k) && EndsAt(line, k) {
      assert SkipBlanks(line, 0) == k;
    }
  }

  /** The table says how this key is read. */
  ghost predicate KeyIs(table: seq<Entry>, key: string, kind: Kind) { Entry(key, kind) in table }

  ghost predicate Sets(table: seq<Entry>, line: string, key: string, text: string, v: Value) {
    HasShape(line, key, text) && |text| <= 511 && exists kind :: KeyIs(table, key, kind) && Reads(kind, text, v)
  }

  /** A line sets a field exactly when it is a key of the table, the sign, and a text that stands for the value. */
  lemma LineExact(table: seq<Entry>, line: string, key: string, v: Value)
    requires TableOk(table)
    ensures LineMeaning(table, line) == Assigned(key, v) <==> exists text: string :: Sets(table, line, key, text, v)
  {
    if text: string :| Sets(table, line, key, text, v) {
      SplitExact(line, key, text);
      AssignExact(table, key, text, v);
    }
    if LineMeaning(table, line) == Assigned(key, v) {
      var text := Split(line).text;
      SplitExact(line, key, text);
      AssignExact(table, key, text, v);
      assert Sets(table, line, key, text, v);
    }
  }

  lemma AssignExact(table: seq<Entry>, key: string, s: string, v: Value)
    requires TableOk(table)
    ensures Assign(table, key, s) == Assigned(key, v) <==> exists kind :: KeyIs(table, key, kind) && Reads(kind, s, v)
  {
    var i := Lookup(table, key, 0);
    if i < |table| {
      ReadExact(table[i].kind, s, v);
      MeansParsed(table[i].kind, s, v);
      assert table[i] == Entry(key, table[i].kind) && KeyIs(table, key, table[i].kind);
    }
    if kind :| KeyIs(table, key, kind) && Reads(kind, s, v) {
      var j :| 0 <= j < |table| && table[j] == Entry(key, kind);
      LookupName(table, j);
    }
  }

  ghost predicate Unreadable(kind: Kind, s: string) { !kind.ObsoleteKey? && forall v :: !Reads(kind, s, v) }

  /** The line has a key of this kind and a text short enough. */
  ghost predicate Carries(table: seq<Entry>, line: string, key: string, kind: Kind, text: string) {
    HasShape(line, key, text) && |text| <= 511 && KeyIs(table, key, kind)
  }

  lemma CarriesMeans(table: seq<Entry>, line: string, key: string, kind: Kind, text: string)
    requires TableOk(table) && Carries(table, line, key, kind, text)
    ensures LineMeaning(table, line) == Obsolete <==> kind.ObsoleteKey?
    ensures LineMeaning(table, line) == InvalidValue <==> Unreadable(kind, text)
  {
    SplitExact(line, key, text);
    var j :| 0 <= j < |table| && table[j] == Entry(key, kind);
    LookupName(table, j);
    forall v ensures ReadValue(kind, text) == Accepted(v) <==> Reads(kind, text, v) {
      ReadExact(kind, text, v);
    }
  }

  lemma RefusedCarries(table: seq<Entry>, line: string) returns (key: string, kind: Kind, text: string)
    requires TableOk(table) && Split(line).Pair?
    requires LineMeaning(table, line) == Obsolete || LineMeaning(table, line) == InvalidValue
    ensures Carries(table, line, key, kind, text)
  {
    key, text := Split(line).key, Split(line).text;
    SplitExact(line, key, text);
    var i := Lookup(table, key, 0);
    kind := table[i].kind;
    assert table[i] == Entry(key, kind);
  }

  /** A line is refused as obsolete, or for its value, exactly when its key is, or its text is too long or no value of the key's kind. */
  lemma RefusedExact(table: seq<Entry>, line: string)
    requires TableOk(table)
    ensures LineMeaning(table, line) == Obsolete <==>
      exists key: string, kind: Kind, text: string :: Carries(table, line, key, kind, text) && kind.ObsoleteKey?
    ensures LineMeaning(table, line) == InvalidValue <==>
      || Split(line) == TooLong
      || exists key: string, kind: Kind, text: string :: Carries(table, line, key, kind, text) && Unreadable(kind, text)
  {
    forall key: string, kind: Kind, text: string | Carries(table, line, key, kind, text)
      ensures LineMeaning(table, line) == Obsolete <==> kind.ObsoleteKey?
      ensures LineMeaning(table, line) == InvalidValue <==> Unreadable(kind, text)
    {
      CarriesMeans(table, line, key, kind, text);
    }
    if Split(line).Pair? && (LineMeaning(table, line) == Obsolete || LineMeaning(table, line) == InvalidValue) {
      var key, kind, text := RefusedCarries(table, line);
    }
  }

  /** In a written file the signs stand below each other, for every name that fits the column. */
  lemma WrittenAligned(name: string, width: nat, v: Value)
    requires |name| <= width
    ensures |Written(name, width, v)| > width + 1 && Written(name, width, v)[width + 1] == '='
  {
    assert Written(name, width, v) == (name + Spaces(width - |name|)) + (" = " + ValueText(v) + "\n");
  }

  // ------------------------------------------------------------------
  // Files
  // ------------------------------------------------------------------

  function Joined(lines: seq<string>): string
    decreases |lines|
  {
    if lines == [] then "" else lines[0] + Joined(lines[1..])
  }

  predicate Unbroken(s: string) { forall i :: 0 <= i < |s| ==> s[i] != '\n' }

  predicate LineShape(line: string) { line != "" && Unbroken(line[..|line| - 1]) }

  predicate Broken(line: string) { line != "" && line[|line| - 1] == '\n' }

  lemma FirstLine(text: string, k: nat)
    requires k == LineEnd(text, 0) < |text|
    ensures LineShape(text[..k + 1]) && Broken(text[..k + 1]) && text[..k + 1] + text[k + 1..] == text
  {
  }

  /** Lines as a file has them: a break ends each but perhaps the last. */
  predicate LinesShape(lines: seq<string>) {
    && (forall i :: 0 <= i < |lines| ==> LineShape(lines[i]))
    && forall i :: 0 <= i < |lines| - 1 ==> Broken(lines[i])
  }

  /** The lines of a file are the file, each up to and including its line break; only the last may lack one. */
  lemma {:induction false} LinesExact(text: string)
    ensures Joined(Lines(text)) == text && LinesShape(Lines(text))
    decreases |text|
  {
    if text != "" {
      var k := LineEnd(text, 0);
      if k == |text| {
        assert Joined([text][1..]) == "" && text + "" == text;
      } else {
        FirstLine(text, k);
        LinesExact(text[k + 1..]);
        JoinedMore(text[..k + 1], Lines(text[k + 1..]));
        LinesMore(text[..k + 1], Lines(text[k + 1..]));
      }
    }
  }

  lemma JoinedMore(line: string, rest: seq<string>)
    ensures Joined([line] + rest) == line + Joined(rest)
  {
    assert ([line] + rest)[1..] == rest;
  }

  lemma LinesMore(line: string, rest: seq<string>)
    requires LineShape(line) && Broken(line) && LinesShape(rest)
    ensures LinesShape([line] + rest)
  {
    var all := [line] + rest;
    forall i | 0 <= i < |all| ensures LineShape(all[i]) {
      if i > 0 { assert all[i] == rest[i - 1]; }
    }
    forall i | 0 <= i < |all| - 1 ensures Broken(all[i]) {
      if i > 0 { assert all[i] == rest[i - 1]; }
    }
  }

  /** Line `i` gives the key this value, and no later line gives it one. */
  ghost predicate SetLast(table: seq<Entry>, lines: seq<string>, i: nat, key: string, v: Value) {
    && i < |lines| && LineMeaning(table, lines[i]) == Assigned(key, v)
    && forall j :: i < j < |lines| ==> !SetsKey(table, lines[j], key)
  }

  predicate SetsKey(table: seq<Entry>, line: string, key: string) {
    LineMeaning(table, line).Assigned? && LineMeaning(table, line).key == key
  }

  ghost predicate SomeSetsLast(table: seq<Entry>, lines: seq<string>, key: string, v: Value) {
    exists i :: 0 <= i < |lines| && SetLast(table, lines, i, key, v)
  }

  predicate NoneSets(table: seq<Entry>, lines: seq<string>, key: string) {
    forall j :: 0 <= j < |lines| ==> !SetsKey(table, lines[j], key)
  }

  predicate Has(cfg: Config, key: string, v: Value) { key in cfg && cfg[key] == v }

  /** After loading, a field has the value the last line that sets it gives it; a field no line sets keeps its own. */
  lemma {:induction false} LoadLast(table: seq<Entry>, lines: seq<string>, cfg: Config, key: string, v: Value)
    ensures Has(LoadLines(table, lines, cfg), key, v) <==>
      SomeSetsLast(table, lines, key, v) || (NoneSets(table, lines, key) && Has(cfg, key, v))
    decreases |lines|
  {
    if lines != [] {
      LoadLast(table, lines[1..], Applied(LineMeaning(table, lines[0]), cfg), key, v);
      NoneSetsFirst(table, lines, key);
      SomeSetsFirst(table, lines, key, v);
    }
  }

  lemma NoneSetsFirst(table: seq<Entry>, lines: seq<string>, key: string)
    requires lines != []
    ensures NoneSets(table, lines, key) <==> !SetsKey(table, lines[0], key) && NoneSets(table, lines[1..], key)
  {
    assert forall j :: 1 <= j < |lines| ==> lines[j] == lines[1..][j - 1];
    assert forall j :: 0 <= j < |lines| - 1 ==> lines[1..][j] == lines[j + 1];
  }

  lemma SomeSetsFirst(table: seq<Entry>, lines: seq<string>, key: string, v: Value)
    requires lines != []
    ensures SomeSetsLast(table, lines, key, v) <==>
      || SomeSetsLast(table, lines[1..], key, v)
      || (LineMeaning(table, lines[0]) == Assigned(key, v) && NoneSets(table, lines[1..], key))
  {
    SetFirst(table, lines, key, v);
    forall i | 0 <= i < |lines[1..]| ensures SetLast(table, lines[1..], i, key, v) <==> SetLast(table, lines, i + 1, key, v) {
      SetLastShift(table, lines, i, key, v);
    }
    if i :| 0 <= i < |lines| && SetLast(table, lines, i, key, v) {
      if i > 0 {
        SetLastShift(table, lines, i - 1, key, v);
        assert SetLast(table, lines[1..], i - 1, key, v);
      }
    }
    if i :| 0 <= i < |lines[1..]| && SetLast(table, lines[1..], i, key, v) {
      assert SetLast(table, lines, i + 1, key, v);
    }
  }

  lemma SetLastShift(table: seq<Entry>, lines: seq<string>, i: nat, key: string, v: Value)
    requires lines != [] && i < |lines[1..]|
    ensures SetLast(table, lines[1..], i, key, v) <==> SetLast(table, lines, i + 1, key, v)
  {
    assert forall j :: i < j < |lines| - 1 ==> lines[1..][j] == lines[j + 1];
    assert forall j :: i + 1 < j < |lines| ==> lines[j] == lines[1..][j - 1];
  }

  lemma SetFirst(table: seq<Entry>, lines: seq<string>, key: string, v: Value)
    requires lines != []
    ensures SetLast(table, lines, 0, key, v) <==>
      LineMeaning(table, lines[0]) == Assigned(key, v) && NoneSets(table, lines[1..], key)
  {
    assert forall j :: 1 <= j < |lines| ==> lines[j] == lines[1..][j - 1];
    assert forall j :: 0 <= j < |lines| - 1 ==> lines[1..][j] == lines[j + 1];
  }
}
