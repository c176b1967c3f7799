/**
 The text form of the server and client configurations (`src/app/server_config.c`, `src/app/client_config.c`):
 one `key = value` line per field that is set. The keys, with how each value is read and written, form a table;
 a configuration maps the keys that are set to their values.
 */
module ConfigText {
  import opened Decimals

  const KEY_MAX: nat := 64
  const VALUE_MAX: nat := 512
  const INT_MIN: int := -0x8000_0000
  const INT_MAX: int := 0x7FFF_FFFF
  const LONG_MIN: int := -0x8000_0000_0000_0000
  const LONG_MAX: int := 0x7FFF_FFFF_FFFF_FFFF

  /** How the value of a key is read: with bounds, with bounds and a range check, as text, and so on. */
  datatype Kind =
    | IntKey(low: int, high: int)
    | WideKey(low: int, high: int)
    | ClampedKey(low: int, high: int)
    | LimitKey
    | TextKey
    | DirectionKey
    | ObsoleteKey

  datatype Value = Num(n: int) | Text(s: string) | Direction(descending: bool)

  datatype Entry = Entry(name: string, kind: Kind)

  type Config = map<string, Value>

  datatype Outcome = Ignored | UnknownKey | InvalidValue | Obsolete | Assigned(key: string, value: Value)

  datatype ReadResult = Rejected | Accepted(value: Value)

  // ------------------------------------------------------------------
  // Reading one line
  // ------------------------------------------------------------------

  predicate Blank(c: char) { c == ' ' || c == '\t' }

  const NUL: char := '\0'

  /** What ends a value: the end of the C string, the end of the line, or a comment. */
  predicate Stop(c: char) { c == NUL || c == '\n' || c == '\r' || c == '#' }

  function SkipBlanks(s: string, i: nat): (k: nat)
    requires i <= |s|
    ensures i <= k <= |s| && (k < |s| ==> !Blank(s[k])) && forall j :: i <= j < k ==> Blank(s[j])
    decreases |s| - i
  {
    if i == |s| || !Blank(s[i]) then i else SkipBlanks(s, i + 1)
  }

  function FindEquals(s: string, i: nat): (k: nat)
    requires i <= |s|
    ensures i <= k <= |s| && (k < |s| ==> s[k] == '=' || s[k] == NUL) && forall j :: i <= j < k ==> s[j] != '=' && s[j] != NUL
    decreases |s| - i
  {
    if i == |s| || s[i] == '=' || s[i] == NUL then i else FindEquals(s, i + 1)
  }

  function ValueStop(s: string, i: nat): (k: nat)
    requires i <= |s|
    ensures i <= k <= |s| && (k < |s| ==> Stop(s[k])) && forall j :: i <= j < k ==> !Stop(s[j])
    decreases |s| - i
  {
    if i == |s| || Stop(s[i]) then i else ValueStop(s, i + 1)
  }

  function Rtrim(s: string, start: nat, end: nat): (k: nat)
    requires start <= end <= |s|
    ensures start <= k <= end && (k > start ==> !Blank(s[k - 1])) && forall j :: k <= j < end ==> Blank(s[j])
    decreases end
  {
    if end > start && Blank(s[end - 1]) then Rtrim(s, start, end - 1) else end
  }

  function Lookup(table: seq<Entry>, key: string, i: nat): (k: nat)
    requires i <= |table|
    ensures i <= k <= |table| && (k < |table| ==> table[k].name == key) && forall j :: i <= j < k ==> table[j].name != key
    decreases |table| - i
  {
    if i == |table| || table[i].name == key then i else Lookup(table, key, i + 1)
  }

  /** The whole text must be the numeral. */
  predicate Entire(r: Reading, s: string) { r.end > 0 && r.end == |s| }

  function Clamp(n: int, low: int, high: int): (r: int)
    ensures low <= high ==> low <= r <= high
    ensures low <= n <= high ==> r == n
    ensures low <= high ==> (n < low ==> r == low) && (n > high ==> r == high)
  {
    if n < low then low else if n > high then high else n
  }

  function ReadValue(kind: Kind, s: string): ReadResult {
    match kind
    case IntKey(low, high) =>
      var r := ReadSigned(s, LONG_MIN, LONG_MAX);
      if Entire(r, s) && low <= r.value <= high then Accepted(Num(r.value)) else Rejected
    case WideKey(low, high) =>
      var r := ReadSigned(s, LONG_MIN, LONG_MAX);
      if Entire(r, s) && !r.overflow && low <= r.value <= high then Accepted(Num(r.value)) else Rejected
    case ClampedKey(low, high) =>
      var r := ReadSigned(s, LONG_MIN, LONG_MAX);
      if Entire(r, s) && INT_MIN <= r.value <= INT_MAX then Accepted(Num(Clamp(r.value, low, high))) else Rejected
    case LimitKey =>
      var r := ReadUnsigned(s);
      if s != "" && s[0] == '-' then Rejected
      else if Entire(r, s) then Accepted(Num(r.value)) else Rejected
    case TextKey => if s == "" then Rejected else Accepted(Text(s))
    case DirectionKey =>
      if s == "asc" then Accepted(Direction(false)) else if s == "desc" then Accepted(Direction(true)) else Rejected
    case ObsoleteKey => Rejected
  }

  function Assign(table: seq<Entry>, key: string, s: string): Outcome {
    var i := Lookup(table, key, 0);
    if i == |table| then UnknownKey
    else if table[i].kind.ObsoleteKey? then Obsolete
    else
      match ReadValue(table[i].kind, s)
      case Rejected => InvalidValue
      case Accepted(v) => Assigned(key, v)
  }

  datatype Pieces = Nothing | Malformed | TooLong | Pair(key: string, text: string)

  /** The key and the value text of one line, trimmed. */
  function Split(line: string): Pieces {
    var p := SkipBlanks(line, 0);
    if p == |line| || Stop(line[p]) then Nothing
    else
      var eq := FindEquals(line, p);
      if eq == |line| || line[eq] == NUL then Malformed
      else
        var keyEnd := Rtrim(line, p, eq);
        if keyEnd == p || keyEnd - p >= KEY_MAX then Malformed
        else
          var v := SkipBlanks(line, eq + 1);
          var vEnd := Rtrim(line, v, ValueStop(line, v));
          if vEnd - v >= VALUE_MAX then TooLong else Pair(line[p..keyEnd], line[v..vEnd])
  }

  /** What one line means. */
  function LineMeaning(table: seq<Entry>, line: string): Outcome {
    match Split(line)
    case Nothing => Ignored
    case Malformed => UnknownKey
    case TooLong => InvalidValue
    case Pair(key, text) => Assign(table, key, text)
  }

  function Applied(o: Outcome, cfg: Config): Config {
    if o.Assigned? then cfg[o.key := o.value] else cfg
  }

  // ------------------------------------------------------------------
  // Reading a file
  // ------------------------------------------------------------------

  function LineEnd(text: string, i: nat): (k: nat)
    requires i <= |text|
    ensures i <= k <= |text| && (k < |text| ==> text[k] == '\n') && forall j :: i <= j < k ==> text[j] != '\n'
    decreases |text| - i
  {
    if i == |text| || text[i] == '\n' then i else LineEnd(text, i + 1)
  }

  /** The lines of a file, each with its end of line. */
  function Lines(text: string): seq<string>
    decreases |text|
  {
    if text == "" then []
    else
      var k := LineEnd(text, 0);
      if k == |text| then [text] else [text[..k + 1]] + Lines(text[k + 1..])
  }

  function LoadLines(table: seq<Entry>, lines: seq<string>, cfg: Config): Config
    decreases |lines|
  {
    if lines == [] then cfg else LoadLines(table, lines[1..], Applied(LineMeaning(table, lines[0]), cfg))
  }

  function Load(table: seq<Entry>, text: string): Config { LoadLines(table, Lines(text), map[]) }

  // ------------------------------------------------------------------
  // Writing
  // ------------------------------------------------------------------

  function Spaces(n: int): (s: string)
    ensures |s| == (if n <= 0 then 0 else n) && forall i :: 0 <= i < |s| ==> s[i] == ' '
  {
    if n <= 0 then "" else Spaces(n - 1) + " "
  }

  function ValueText(v: Value): string {
    match v
    case Num(n) => Show(n)
    case Text(s) => s
    case Direction(descending) => if descending then "desc" else "asc"
  }

  function Written(name: string, width: nat, v: Value): string {
    name + Spaces(width - |name|) + " = " + ValueText(v) + "\n"
  }

  predicate IsSet(e: Entry, cfg: Config) { !e.kind.ObsoleteKey? && e.name in cfg }

  /** The text of the fields set, from entry `i` of the table on. */
  function TextFrom(table: seq<Entry>, width: nat, cfg: Config, i: nat): string
    requires i <= |table|
    decreases |table| - i
  {
    if i == |table| then ""
    else (if IsSet(table[i], cfg) then Written(table[i].name, width, cfg[table[i].name]) else "") + TextFrom(table, width, cfg, i + 1)
  }

  // ------------------------------------------------------------------
  // What can be written and read back
  // ------------------------------------------------------------------

  /** Non-empty, shorter than the value buffer, without comment or line break, not edged by blanks. */
  predicate TextFits(s: string) {
    && 0 < |s| < VALUE_MAX && !Blank(s[0]) && !Blank(s[|s| - 1])
    && forall i :: 0 <= i < |s| ==> !Stop(s[i])
  }

  predicate Fits(kind: Kind, v: Value) {
    match kind
    case IntKey(low, high) => v.Num? && low <= v.n <= high
    case WideKey(low, high) => v.Num? && low <= v.n <= high
    case ClampedKey(low, high) => v.Num? && low <= v.n <= high
    case LimitKey => v.Num? && 0 <= v.n < WORD
    case TextKey => v.Text? && TextFits(v.s)
    case DirectionKey => v.Direction?
    case ObsoleteKey => false
  }

  predicate ConfigFits(table: seq<Entry>, cfg: Config) {
    forall k :: k in cfg ==> KeyFits(table, k, cfg[k])
  }

  predicate KeyFits(table: seq<Entry>, k: string, v: Value) {
    var i := Lookup(table, k, 0);
    i < |table| && Fits(table[i].kind, v)
  }

  predicate NameChar(c: char) { 'a' <= c <= 'z' || c == '_' }

  predicate PlainName(name: string) {
    0 < |name| < KEY_MAX && forall i :: 0 <= i < |name| ==> NameChar(name[i])
  }

  predicate KindOk(kind: Kind) {
    match kind
    case IntKey(low, high) => INT_MIN <= low <= high <= INT_MAX
    case WideKey(low, high) => LONG_MIN <= low <= high <= LONG_MAX
    case ClampedKey(low, high) => INT_MIN <= low <= high <= INT_MAX
    case _ => true
  }

  predicate TableOk(table: seq<Entry>) {
    && (forall i :: 0 <= i < |table| ==> PlainName(table[i].name) && KindOk(table[i].kind))
    && (forall i, j :: 0 <= i < j < |table| ==> table[i].name != table[j].name)
  }

  /** Every value that fits is written as text that fits. */
  lemma ValueTextFits(kind: Kind, v: Value)
    requires KindOk(kind) && Fits(kind, v)
    ensures TextFits(ValueText(v))
  {
    if v.Num? {
      ShowShape(v.n);
    }
  }

  /** Reading what was written for a value that fits gives the value. */
  lemma ReadWritten(kind: Kind, v: Value)
    requires KindOk(kind) && Fits(kind, v)
    ensures ReadValue(kind, ValueText(v)) == Accepted(v)
  {
    if kind.LimitKey? {
      ReadShow(v.n, 0, WORD);
      assert Show(v.n)[0] != '-' by { ShowNatReads(v.n); }
    } else if v.Num? {
      ReadShow(v.n, LONG_MIN, LONG_MAX);
    }
  }

  lemma PlacesKey(name: string, gap: nat, rest: string, line: string)
    requires line == name + Spaces(gap) + " = " + rest
    ensures |line| == |name| + gap + 3 + |rest|
    ensures forall i :: 0 <= i < |name| ==> line[i] == name[i]
    ensures forall i :: |name| <= i < |name| + gap + 1 ==> line[i] == ' '
    ensures line[|name| + gap + 1] == '='
  {
  }

  lemma PlacesText(front: string, s: string, line: string)
    requires line == front + " = " + s + "\n"
    ensures |line| == |front| + 3 + |s| + 1 && line[|front| + 2] == ' '
    ensures forall i :: 0 <= i < |s| ==> line[|front| + 3 + i] == s[i]
    ensures line[|line| - 1] == '\n'
  {
  }

  lemma KeyPart(name: string, gap: nat, line: string)
    requires PlainName(name) && |line| > |name| + gap + 1 && line[|name| + gap + 1] == '='
    requires forall i :: 0 <= i < |name| ==> line[i] == name[i]
    requires forall i :: |name| <= i < |name| + gap + 1 ==> line[i] == ' '
    ensures SkipBlanks(line, 0) == 0 && !Stop(line[0])
    ensures FindEquals(line, 0) == |name| + gap + 1 && Rtrim(line, 0, |name| + gap + 1) == |name|
    ensures line[0..|name|] == name
  {
    assert NameChar(name[0]) && NameChar(name[|name| - 1]);
    forall i | 0 <= i < |name| + gap + 1 ensures line[i] != '=' && line[i] != NUL {
      if i < |name| {
        assert NameChar(name[i]);
      }
    }
  }

  lemma ValuePart(v: nat, s: string, line: string)
    requires TextFits(s) && v > 0 && |line| == v + |s| + 1 && line[v - 1] == ' ' && line[|line| - 1] == '\n'
    requires forall i :: 0 <= i < |s| ==> line[v + i] == s[i]
    ensures SkipBlanks(line, v - 1) == v
    ensures ValueStop(line, v) == |line| - 1 && Rtrim(line, v, |line| - 1) == |line| - 1
    ensures line[v..|line| - 1] == s
  {
    assert line[v] == s[0] && line[|line| - 2] == s[|s| - 1];
    forall k | v <= k < |line| - 1 ensures !Stop(line[k]) {
      assert line[k] == s[k - v];
    }
    assert Stop(line[|line| - 1]);
  }

  lemma SplitsWhen(line: string, n: nat, eq: nat, v: nat, end: nat)
    requires 0 < n < KEY_MAX && n <= eq < |line| && line[eq] == '=' && eq + 1 <= v <= end <= |line| && end - v < VALUE_MAX
    requires SkipBlanks(line, 0) == 0 && !Stop(line[0]) && FindEquals(line, 0) == eq && Rtrim(line, 0, eq) == n
    requires SkipBlanks(line, eq + 1) == v && ValueStop(line, v) == end && Rtrim(line, v, end) == end
    ensures Split(line) == Pair(line[0..n], line[v..end])
  {
  }

  /** A written line splits into its key and its text, whatever the padding. */
  lemma WrittenSplits(name: string, gap: nat, s: string, line: string)
    requires line == name + Spaces(gap) + " = " + s + "\n" && PlainName(name) && TextFits(s)
    ensures Split(line) == Pair(name, s)
  {
    WrittenKey(name, gap, s, line);
    WrittenText(name, gap, s, line);
    SplitsWhen(line, |name|, |name| + gap + 1, |name| + gap + 3, |line| - 1);
  }

  lemma WrittenKey(name: string, gap: nat, s: string, line: string)
    requires line == name + Spaces(gap) + " = " + s + "\n" && PlainName(name)
    ensures SkipBlanks(line, 0) == 0 && |line| > 0 && !Stop(line[0]) && |name| + gap + 1 < |line|
    ensures FindEquals(line, 0) == |name| + gap + 1 && Rtrim(line, 0, |name| + gap + 1) == |name|
    ensures line[|name| + gap + 1] == '=' && line[0..|name|] == name
  {
    assert line == name + Spaces(gap) + " = " + (s + "\n");
    PlacesKey(name, gap, s + "\n", line);
    KeyPart(name, gap, line);
  }

  lemma WrittenText(name: string, gap: nat, s: string, line: string)
    requires line == name + Spaces(gap) + " = " + s + "\n" && TextFits(s)
    ensures |line| == |name| + gap + 3 + |s| + 1
    ensures var v := |name| + gap + 3;
            SkipBlanks(line, v - 1) == v && ValueStop(line, v) == |line| - 1 && Rtrim(line, v, |line| - 1) == |line| - 1
            && line[v..|line| - 1] == s
  {
    PlacesText(name + Spaces(gap), s, line);
    ValuePart(|name| + gap + 3, s, line);
  }

  lemma AssignWritten(table: seq<Entry>, i: nat, v: Value)
    requires TableOk(table) && i < |table| && Fits(table[i].kind, v)
    ensures Assign(table, table[i].name, ValueText(v)) == Assigned(table[i].name, v)
  {
    ReadWritten(table[i].kind, v);
    AssignRead(table, i, ValueText(v), v);
  }

  lemma AssignRead(table: seq<Entry>, i: nat, s: string, v: Value)
    requires TableOk(table) && i < |table| && ReadValue(table[i].kind, s) == Accepted(v)
    ensures Assign(table, table[i].name, s) == Assigned(table[i].name, v)
  {
    LookupName(table, i);
  }

  lemma LookupName(table: seq<Entry>, i: nat)
    requires TableOk(table) && i < |table|
    ensures Lookup(table, table[i].name, 0) == i
  {
  }

  lemma WrittenPair(name: string, width: nat, kind: Kind, v: Value)
    requires PlainName(name) && KindOk(kind) && Fits(kind, v)
    ensures Split(Written(name, width, v)) == Pair(name, ValueText(v))
  {
    var gap := |Spaces(width - |name|)|;
    SpacesSame(width - |name|, gap);
    ValueTextFits(kind, v);
    WrittenSplits(name, gap, ValueText(v), Written(name, width, v));
  }

  /** Writing a field and reading the line sets that field. */
  lemma FieldRoundTrip(table: seq<Entry>, width: nat, i: nat, v: Value)
    requires TableOk(table) && i < |table| && Fits(table[i].kind, v)
    ensures LineMeaning(table, Written(table[i].name, width, v)) == Assigned(table[i].name, v)
  {
    WrittenPair(table[i].name, width, table[i].kind, v);
    AssignWritten(table, i, v);
  }

  lemma SpacesSame(n: int, gap: nat)
    requires gap == if n <= 0 then 0 else n
    ensures Spaces(n) == Spaces(gap)
  {
  }

  lemma OneLine(line: string, rest: string)
    requires |line| > 0 && line[|line| - 1] == '\n' && forall i :: 0 <= i < |line| - 1 ==> line[i] != '\n'
    ensures Lines(line + rest) == [line] + Lines(rest)
  {
    var text := line + rest;
    assert text[|line| - 1] == '\n' && forall i :: 0 <= i < |line| ==> text[i] == line[i];
    assert LineEnd(text, 0) == |line| - 1;
    assert text[..|line|] == line && text[|line|..] == rest;
  }

  lemma WrittenIsLine(name: string, width: nat, kind: Kind, v: Value)
    requires PlainName(name) && KindOk(kind) && Fits(kind, v)
    ensures var line := Written(name, width, v);
            |line| > 0 && line[|line| - 1] == '\n' && forall i :: 0 <= i < |line| - 1 ==> line[i] != '\n'
  {
    var front, s := name + Spaces(width - |name|), ValueText(v);
    ValueTextFits(kind, v);
    NoBreakInFront(name, width - |name|);
    var line := Written(name, width, v);
    PlacesText(front, s, line);
    forall i | 0 <= i < |line| - 1 ensures line[i] != '\n' {
      if i < |front| {
        assert line[i] == front[i];
      } else if i >= |front| + 3 {
        assert line[i] == s[i - (|front| + 3)];
      }
    }
  }

  lemma NoBreakInFront(name: string, n: int)
    requires PlainName(name)
    ensures forall i :: 0 <= i < |name + Spaces(n)| ==> (name + Spaces(n))[i] != '\n'
  {
    forall i | 0 <= i < |name| ensures name[i] != '\n' {
      assert NameChar(name[i]);
    }
  }

  /** The fields of a configuration whose keys come before entry `i`. */
  ghost predicate Upto(table: seq<Entry>, cfg: Config, i: nat, part: Config)
    requires i <= |table|
  {
    && (forall k :: k in part <==> k in cfg && Lookup(table, k, 0) < i)
    && (forall k :: k in part ==> part[k] == cfg[k])
  }

  lemma LoadOne(table: seq<Entry>, width: nat, i: nat, v: Value, rest: string, part: Config)
    requires TableOk(table) && i < |table| && Fits(table[i].kind, v)
    ensures LoadLines(table, Lines(Written(table[i].name, width, v) + rest), part) ==
            LoadLines(table, Lines(rest), part[table[i].name := v])
  {
    var line := Written(table[i].name, width, v);
    FieldRoundTrip(table, width, i, v);
    WrittenIsLine(table[i].name, width, table[i].kind, v);
    OneLine(line, rest);
    var lines := [line] + Lines(rest);
    assert lines[0] == line && lines[1..] == Lines(rest);
  }

  lemma {:induction false} LoadRest(table: seq<Entry>, width: nat, cfg: Config, i: nat, part: Config)
    requires TableOk(table) && ConfigFits(table, cfg) && i <= |table| && Upto(table, cfg, i, part)
    ensures LoadLines(table, Lines(TextFrom(table, width, cfg, i)), part) == cfg
    decreases |table| - i
  {
    if i == |table| {
      forall k | k in cfg ensures k in part {
        assert KeyFits(table, k, cfg[k]);
      }
      assert part == cfg;
    } else {
      var name := table[i].name;
      LookupName(table, i);
      var rest := TextFrom(table, width, cfg, i + 1);
      if name in cfg {
        assert KeyFits(table, name, cfg[name]);
        LoadOne(table, width, i, cfg[name], rest, part);
        UptoNext(table, cfg, i, part);
        LoadRest(table, width, cfg, i + 1, part[name := cfg[name]]);
      } else {
        UptoSkip(table, cfg, i, part);
        assert "" + rest == rest;
        LoadRest(table, width, cfg, i + 1, part);
      }
    }
  }

  lemma UptoNext(table: seq<Entry>, cfg: Config, i: nat, part: Config)
    requires i < |table| && Upto(table, cfg, i, part) && table[i].name in cfg && Lookup(table, table[i].name, 0) == i
    ensures Upto(table, cfg, i + 1, part[table[i].name := cfg[table[i].name]])
  {
    var name := table[i].name;
    var more := part[name := cfg[name]];
    forall k ensures k in more <==> k in cfg && Lookup(table, k, 0) < i + 1 {
      if Lookup(table, k, 0) == i {
        assert k == name;
      }
    }
    forall k | k in more ensures more[k] == cfg[k] {
      assert k == name || k in part;
    }
  }

  lemma UptoSkip(table: seq<Entry>, cfg: Config, i: nat, part: Config)
    requires i < |table| && Upto(table, cfg, i, part) && table[i].name !in cfg && Lookup(table, table[i].name, 0) == i
    ensures Upto(table, cfg, i + 1, part)
  {
    forall k | k in cfg ensures Lookup(table, k, 0) != i {}
  }

  /** Reading the text of a configuration into a fresh one gives back the configuration. */
  lemma ConfigRoundTrip(table: seq<Entry>, width: nat, cfg: Config)
    requires TableOk(table) && ConfigFits(table, cfg)
    ensures Load(table, TextFrom(table, width, cfg, 0)) == cfg
  {
    LoadRest(table, width, cfg, 0, map[]);
  }

  // ------------------------------------------------------------------
  // Everything that can be read can be written back
  // ------------------------------------------------------------------

  lemma ReadFits(kind: Kind, s: string)
    requires KindOk(kind) && ReadValue(kind, s).Accepted? && (s != "" ==> TextFits(s))
    ensures Fits(kind, ReadValue(kind, s).value)
  {
  }

  /** The value a line carries is trimmed, and free of comments and line breaks. */
  lemma ValueTrimmed(line: string, from: nat)
    requires from <= |line|
    ensures var v := SkipBlanks(line, from);
            var s := line[v..Rtrim(line, v, ValueStop(line, v))];
            s != "" && |s| < VALUE_MAX ==> TextFits(s)
  {
    var v := SkipBlanks(line, from);
    var vEnd := Rtrim(line, v, ValueStop(line, v));
    var s := line[v..vEnd];
    if s != "" {
      assert s[0] == line[v] && s[|s| - 1] == line[vEnd - 1];
      forall i | 0 <= i < |s| ensures !Stop(s[i]) {
        assert s[i] == line[v + i];
      }
    }
  }

  lemma AssignFits(table: seq<Entry>, key: string, s: string)
    requires TableOk(table) && Assign(table, key, s).Assigned? && (s != "" ==> TextFits(s))
    ensures var o := Assign(table, key, s); o.key == key && KeyFits(table, key, o.value)
  {
    ReadFits(table[Lookup(table, key, 0)].kind, s);
  }

  lemma SplitTrimmed(line: string)
    requires Split(line).Pair? && Split(line).text != ""
    ensures TextFits(Split(line).text)
  {
    ValueTrimmed(line, FindEquals(line, SkipBlanks(line, 0)) + 1);
  }

  lemma MeaningFits(table: seq<Entry>, line: string)
    requires TableOk(table) && LineMeaning(table, line).Assigned?
    ensures KeyFits(table, LineMeaning(table, line).key, LineMeaning(table, line).value)
  {
    var pair := Split(line);
    if pair.text != "" {
      SplitTrimmed(line);
    }
    AssignFits(table, pair.key, pair.text);
  }

  lemma {:induction false} LoadLinesFit(table: seq<Entry>, lines: seq<string>, cfg: Config)
    requires TableOk(table) && ConfigFits(table, cfg)
    ensures ConfigFits(table, LoadLines(table, lines, cfg))
    decreases |lines|
  {
    if lines != [] {
      var o := LineMeaning(table, lines[0]);
      if o.Assigned? {
        MeaningFits(table, lines[0]);
      }
      LoadLinesFit(table, lines[1..], Applied(o, cfg));
    }
  }

  predicate NulFree(s: string) { forall i :: 0 <= i < |s| ==> s[i] != NUL }

  lemma LineNulFree(name: string, width: nat, kind: Kind, v: Value)
    requires PlainName(name) && KindOk(kind) && Fits(kind, v)
    ensures NulFree(Written(name, width, v))
  {
    var line, front, s := Written(name, width, v), name + Spaces(width - |name|), ValueText(v);
    ValueTextFits(kind, v);
    PlacesText(front, s, line);
    forall i | 0 <= i < |line| ensures line[i] != NUL {
      if i < |name| {
        assert line[i] == name[i] && NameChar(name[i]);
      } else if i >= |front| + 3 && i < |line| - 1 {
        assert line[i] == s[i - (|front| + 3)];
      }
    }
  }

  /** The text of a configuration is a C string. */
  lemma {:induction false} TextNulFree(table: seq<Entry>, width: nat, cfg: Config, i: nat)
    requires TableOk(table) && ConfigFits(table, cfg) && i <= |table|
    ensures NulFree(TextFrom(table, width, cfg, i))
    decreases |table| - i
  {
    if i < |table| {
      TextNulFree(table, width, cfg, i + 1);
      if IsSet(table[i], cfg) {
        LookupName(table, i);
        assert KeyFits(table, table[i].name, cfg[table[i].name]);
        LineNulFree(table[i].name, width, table[i].kind, cfg[table[i].name]);
      }
    }
  }

  /** Whatever file was loaded, the text of the result can be read, and reading it changes nothing. */
  lemma ReloadStable(table: seq<Entry>, width: nat, text: string)
    requires TableOk(table)
    ensures ConfigFits(table, Load(table, text))
    ensures Load(table, TextFrom(table, width, Load(table, text), 0)) == Load(table, text)
    ensures NulFree(TextFrom(table, width, Load(table, text), 0))
  {
    LoadLinesFit(table, Lines(text), map[]);
    ConfigRoundTrip(table, width, Load(table, text));
    TextNulFree(table, width, Load(table, text), 0);
  }

  // ------------------------------------------------------------------
  // The minus sign of the rate limit
  // ------------------------------------------------------------------

  predicate NumeralFrom(s: string, i: nat) { i < |s| && AllDigits(s[i..]) }

  /**
   A negative rate limit is refused exactly when the minus sign comes first. Behind white space that trimming does
   not remove (a vertical tab, a form feed) it is read, and wraps around; a numeral too large saturates instead.
   */
  lemma NegativeLimit(s: string, i: nat)
    requires i < |s| && s[i] == '-' && (forall j :: 0 <= j < i ==> IsSpace(s[j])) && NumeralFrom(s, i + 1)
    ensures var size := ValueOf(s[i + 1..]);
            ReadValue(LimitKey, s) ==
            if i == 0 then Rejected else Accepted(Num(if size >= WORD then WORD - 1 else (WORD - size) % WORD))
  {
    assert SkipSpaces(s, 0) == i;
    assert DigitsEnd(s, i + 1) == |s| by {
      forall j | i + 1 <= j < |s| ensures IsDigit(s[j]) { assert s[j] == s[i + 1..][j - i - 1]; }
    }
    assert s[i + 1..|s|] == s[i + 1..];
  }

  lemma SplitTabbed(line: string, text: string)
    requires text == "\U{0B}-1" && line == "limit = " + text + "\n"
    ensures Split(line) == Pair("limit", text)
  {
    assert |line| == 12 && line[11] == '\n' && line[7] == ' ' && line[6] == '=';
    forall i | 8 <= i < 11 ensures line[i] == text[i - 8] {}
    assert SkipBlanks(line, 7) == 8 && ValueStop(line, 8) == 11 && Rtrim(line, 8, 11) == 11;
    assert Rtrim(line, 0, 6) == 5 && FindEquals(line, 0) == 6;
    SplitsWhen(line, 5, 6, 8, 11);
  }

  /** A whole line of a client's file that sets a limit of minus one, behind a vertical tab. */
  lemma NegativeLimitLine(table: seq<Entry>, i: nat, text: string, line: string)
    requires TableOk(table) && i < |table| && table[i] == Entry("limit", LimitKey)
    requires text == "\U{0B}-1" && line == "limit = " + text + "\n"
    ensures LineMeaning(table, line) == Assigned("limit", Num(WORD - 1))
  {
    SplitTabbed(line, text);
    ReadTabbed(text);
    AssignRead(table, i, text, Num(WORD - 1));
  }

  lemma ReadTabbed(text: string)
    requires text == "\U{0B}-1"
    ensures ReadValue(LimitKey, text) == Accepted(Num(WORD - 1))
  {
    assert text[2..] == "1" && ValueOf("1") == 1 by { assert "1"[..0] == ""; }
    NegativeLimit(text, 1);
  }
}
