/**
 The server and client configurations in place: the tables of their keys, the scanner that reads one line into
 the fields, and the formatter that accumulates the text in a bounded buffer.
 */
module ConfigFiles {
  import opened ConfigText

  const PRUNER_BATCH_MAX := 65536
  const DFS_BUDGET_MAX := 10_000_000

  const SERVER_WIDTH: nat := 18
  const CLIENT_WIDTH: nat := 19

  /** The server's keys in the order they are written, then those no longer accepted. */
  function ServerTable(): seq<Entry> {
    [ Entry("nb_threads", IntKey(1, INT_MAX)),
      Entry("parts_file", TextKey),
      Entry("expand_level", IntKey(0, INT_MAX)),
      Entry("expand_max_stock", WideKey(1, LONG_MAX)),
      Entry("expand_max_levels", IntKey(1, INT_MAX)),
      Entry("expand_threads", IntKey(0, INT_MAX)),
      Entry("http_port", IntKey(1, 65535)),
      Entry("http_token_file", TextKey),
      Entry("stock_files", IntKey(1, INT_MAX)),
      Entry("stock_max_ram", IntKey(1, INT_MAX)),
      Entry("stock_spill_dir", TextKey),
      Entry("rebalance_budget", IntKey(1, INT_MAX)),
      Entry("stock_hot_max", IntKey(1, INT_MAX)),
      Entry("stock_hot_min", IntKey(1, INT_MAX)),
      Entry("tcp_timeout", IntKey(1, INT_MAX)),
      Entry("auto_roles", IntKey(0, 1)),
      Entry("stop_on_solution", IntKey(0, 1)),
      Entry("headless", IntKey(0, 1)),
      Entry("sort_enabled", IntKey(0, 1)),
      Entry("sort_interval", IntKey(1, INT_MAX)),
      Entry("sort_direction", DirectionKey),
      Entry("sort_lock_attempts", IntKey(1, INT_MAX)),
      Entry("rmnonext_enabled", IntKey(0, 1)),
      Entry("rmnonext_interval", IntKey(1, INT_MAX)),
      Entry("rebalance_enabled", IntKey(0, 1)),
      Entry("autobackup_enabled", IntKey(0, 1)),
      Entry("stock_hot_floor", ObsoleteKey),
      Entry("stock_hot_reload", ObsoleteKey) ]
  }

  function ClientTable(): seq<Entry> {
    [ Entry("nb_forks", IntKey(1, INT_MAX)),
      Entry("pruner_forks", IntKey(0, INT_MAX)),
      Entry("server_host", TextKey),
      Entry("parts_file", TextKey),
      Entry("max_stock_by_thread", IntKey(0, INT_MAX)),
      Entry("shallow_root_abandon_depth", IntKey(0, INT_MAX)),
      Entry("limit", LimitKey),
      Entry("pruner_batch", ClampedKey(1, PRUNER_BATCH_MAX)),
      Entry("dfs_budget", ClampedKey(0, DFS_BUDGET_MAX)) ]
  }

  lemma ServerDistinct(i: nat, j: nat)
    requires i < j < 28
    ensures ServerTable()[i].name != ServerTable()[j].name
  {
  }

  lemma ServerKinds(i: nat)
    requires i < 28
    ensures KindOk(ServerTable()[i].kind)
  {
  }

  lemma ServerPlain0(i: nat)
    requires 0 <= i < 7
    ensures PlainName(ServerTable()[i].name)
  {
    var name := ServerTable()[i].name;
    forall j | 0 <= j < |name| ensures NameChar(name[j]) {}
  }

  lemma ServerPlain7(i: nat)
    requires 7 <= i < 14
    ensures PlainName(ServerTable()[i].name)
  {
    var name := ServerTable()[i].name;
    forall j | 0 <= j < |name| ensures NameChar(name[j]) {}
  }

  lemma ServerPlain14(i: nat)
    requires 14 <= i < 21
    ensures PlainName(ServerTable()[i].name)
  {
    var name := ServerTable()[i].name;
    forall j | 0 <= j < |name| ensures NameChar(name[j]) {}
  }

  lemma ServerPlain21(i: nat)
    requires 21 <= i < 28
    ensures PlainName(ServerTable()[i].name)
  {
    var name := ServerTable()[i].name;
    forall j | 0 <= j < |name| ensures NameChar(name[j]) {}
  }

  lemma ServerPlain(i: nat)
    requires i < 28
    ensures PlainName(ServerTable()[i].name)
  {
    if i < 7 {
      ServerPlain0(i);
    } else if i < 14 {
      ServerPlain7(i);
    } else if i < 21 {
      ServerPlain14(i);
    } else {
      ServerPlain21(i);
    }
  }

  lemma ServerTableOk()
    ensures TableOk(ServerTable())
  {
    forall i | 0 <= i < 28 ensures PlainName(ServerTable()[i].name) && KindOk(ServerTable()[i].kind) {
      ServerPlain(i);
      ServerKinds(i);
    }
    forall i, j | 0 <= i < j < 28 ensures ServerTable()[i].name != ServerTable()[j].name {
      ServerDistinct(i, j);
    }
  }

  lemma ClientPlain0(i: nat)
    requires i < 5
    ensures PlainName(ClientTable()[i].name) && KindOk(ClientTable()[i].kind)
  {
  }

  lemma ClientPlain5(i: nat)
    requires 5 <= i < 9
    ensures PlainName(ClientTable()[i].name) && KindOk(ClientTable()[i].kind)
  {
  }

  lemma ClientDistinct(i: nat, j: nat)
    requires i < j < 9
    ensures ClientTable()[i].name != ClientTable()[j].name
  {
  }

  lemma ClientTableOk()
    ensures TableOk(ClientTable())
  {
    forall i | 0 <= i < 9 ensures PlainName(ClientTable()[i].name) && KindOk(ClientTable()[i].kind) {
      if i < 5 {
        ClientPlain0(i);
      } else {
        ClientPlain5(i);
      }
    }
    forall i, j | 0 <= i < j < 9 ensures ClientTable()[i].name != ClientTable()[j].name {
      ClientDistinct(i, j);
    }
  }

  // ------------------------------------------------------------------
  // The scanner
  // ------------------------------------------------------------------

  datatype Status = LineSet | LineIgnored | LineUnknownKey | LineInvalidValue | LineObsoleteKey

  function StatusOf(o: Outcome): Status {
    match o
    case Ignored => LineIgnored
    case UnknownKey => LineUnknownKey
    case InvalidValue => LineInvalidValue
    case Obsolete => LineObsoleteKey
    case Assigned(_, _) => LineSet
  }

  method ScanBlanks(line: string, from: nat) returns (p: nat)
    requires from <= |line|
    ensures p == SkipBlanks(line, from) && from <= p <= |line|
  {
    p := from;
    while p < |line| && (line[p] == ' ' || line[p] == '\t')
      invariant from <= p <= |line| && SkipBlanks(line, p) == SkipBlanks(line, from)
    {
      p := p + 1;
    }
  }

  method TrimBack(line: string, start: nat, end: nat) returns (e: nat)
    requires start <= end <= |line|
    ensures e == Rtrim(line, start, end)
  {
    e := end;
    while e > start && (line[e - 1] == ' ' || line[e - 1] == '\t')
      invariant start <= e <= end && Rtrim(line, start, e) == Rtrim(line, start, end)
    {
      e := e - 1;
    }
  }

  method ScanEquals(line: string, from: nat) returns (eq: nat)
    requires from <= |line|
    ensures eq == FindEquals(line, from)
  {
    eq := from;
    while eq < |line| && line[eq] != '=' && line[eq] != NUL
      invariant from <= eq <= |line| && FindEquals(line, eq) == FindEquals(line, from)
    {
      eq := eq + 1;
    }
  }

  method ScanValue(line: string, from: nat) returns (e: nat)
    requires from <= |line|
    ensures e == ValueStop(line, from)
  {
    e := from;
    while e < |line| && line[e] != NUL && line[e] != '\n' && line[e] != '\r' && line[e] != '#'
      invariant from <= e <= |line| && ValueStop(line, e) == ValueStop(line, from)
    {
      e := e + 1;
    }
  }

  method CutValue(line: string, from: nat) returns (v: nat, vEnd: nat)
    requires from <= |line|
    ensures v == SkipBlanks(line, from) && vEnd == Rtrim(line, v, ValueStop(line, v))
  {
    v := ScanBlanks(line, from);
    vEnd := ScanValue(line, v);
    vEnd := TrimBack(line, v, vEnd);
  }

  /** The key of a line that holds something, from `p` up to the sign; none when it is malformed. */
  method CutKey(line: string, p: nat) returns (found: bool, keyEnd: nat, eq: nat)
    requires p <= |line|
    ensures eq == FindEquals(line, p) && p <= eq <= |line| && (eq < |line| && line[eq] != NUL ==> keyEnd == Rtrim(line, p, eq))
    ensures found <==> eq < |line| && line[eq] != NUL && p < keyEnd < p + KEY_MAX
  {
    found, keyEnd := false, p;
    eq := ScanEquals(line, p);
    if eq < |line| && line[eq] != NUL {
      keyEnd := TrimBack(line, p, eq);
      found := keyEnd != p && keyEnd - p < KEY_MAX;
    }
  }

  /** Cut one line into its key and its value by moving two cursors over it. */
  method SplitLine(line: string) returns (pieces: Pieces)
    ensures pieces == Split(line)
  {
    var p := ScanBlanks(line, 0);
    if p == |line| || line[p] == NUL || line[p] == '\n' || line[p] == '\r' || line[p] == '#' {
      return Nothing;
    }
    var found, keyEnd, eq := CutKey(line, p);
    if !found {
      return Malformed;
    }
    var v, vEnd := CutValue(line, eq + 1);
    return if vEnd - v >= VALUE_MAX then TooLong else Pair(line[p..keyEnd], line[v..vEnd]);
  }

  /** A configuration being filled: the fields that are set. */
  class ConfigFile {
    const table: seq<Entry>
    const width: nat
    var fields: Config

    constructor (keys: seq<Entry>, columns: nat)
      ensures table == keys && width == columns && fields == map[]
    {
      table, width := keys, columns;
      fields := map[];
    }

    /** Read one line into the fields; a line that is refused changes nothing. */
    method ParseLine(line: string) returns (status: Status)
      modifies this
      ensures fields == Applied(LineMeaning(table, line), old(fields))
      ensures status == StatusOf(LineMeaning(table, line))
    {
      var pieces := SplitLine(line);
      match pieces {
        case Nothing =>
          return LineIgnored;
        case Malformed =>
          return LineUnknownKey;
        case TooLong =>
          return LineInvalidValue;
        case Pair(key, text) =>
          var i := 0;
          while i < |table| && table[i].name != key
            invariant 0 <= i <= |table| && Lookup(table, key, i) == Lookup(table, key, 0)
          {
            i := i + 1;
          }
          if i == |table| {
            return LineUnknownKey;
          }
          if table[i].kind.ObsoleteKey? {
            return LineObsoleteKey;
          }
          var read := ReadValue(table[i].kind, text);
          if read.Rejected? {
            return LineInvalidValue;
          }
          fields := fields[key := read.value];
          return LineSet;
      }
    }

    /** Read every line of a file in turn. */
    method LoadFile(text: string)
      modifies this
      ensures fields == LoadLines(table, Lines(text), old(fields))
    {
      var rest := Lines(text);
      while rest != []
        invariant LoadLines(table, rest, fields) == LoadLines(table, Lines(text), old(fields))
        decreases |rest|
      {
        var status := ParseLine(rest[0]);
        rest := rest[1..];
      }
    }

    /**
     Write the fields that are set, in table order, accumulating the offset. The result is the length of the text
     when it fits with its terminator, -1 otherwise; the buffer is then terminated all the same.
     */
    method Format(out: array<char>) returns (r: int)
      modifies out
      ensures r < out.Length && (r >= 0 <==> |TextFrom(table, width, fields, 0)| < out.Length)
      ensures r >= 0 ==> out[..r] == TextFrom(table, width, fields, 0) && out[r] == NUL
      ensures r < 0 ==> r == -1 && (out.Length > 0 ==> out[out.Length - 1] == NUL)
    {
      if out.Length == 0 {
        return -1;
      }
      var off, truncated := AppendAll(out);
      if off >= out.Length {
        out[out.Length - 1] := NUL;
        return -1;
      }
      out[off] := NUL;
      return if truncated then -1 else off;
    }

    /**
     Save: format into the buffer and, if that and the writing succeed, replace the file by the text. `before` is
     what the file held and `written` what the system answers to the writing and renaming.
     */
    method Save(before: string, written: bool) returns (r: int, file: string)
      requires NulFree(TextFrom(table, width, fields, 0))
      ensures r == 0 || r == -1
      ensures r == 0 <==> |TextFrom(table, width, fields, 0)| < SAVE_MAX && written
      ensures r == 0 ==> file == TextFrom(table, width, fields, 0)
      ensures r == 0 && TableOk(table) && ConfigFits(table, fields) ==> Load(table, file) == fields
      ensures r == -1 ==> file == before
    {
      var buf := new char[SAVE_MAX];
      var n := Format(buf);
      if n < 0 {
        return -1, before;
      }
      assert forall i :: 0 <= i < n ==> buf[i] == buf[..n][i];
      var len := StrLen(buf);
      if !written {
        return -1, before;
      }
      r, file := 0, buf[..len];
      if TableOk(table) && ConfigFits(table, fields) {
        ConfigRoundTrip(table, width, fields);
      }
    }

    method AppendAll(out: array<char>) returns (off: nat, truncated: bool)
      modifies out
      ensures Progress(out, off, truncated, TextFrom(table, width, fields, 0))
    {
      off, truncated := 0, false;
      ghost var whole := TextFrom(table, width, fields, 0);
      ghost var written := "";
      for i := 0 to |table|
        invariant written + TextFrom(table, width, fields, i) == whole
        invariant Progress(out, off, truncated, written)
      {
        TextStep(table, width, fields, i, written);
        var name := table[i].name;
        if !table[i].kind.ObsoleteKey? && name in fields {
          var line := Written(name, width, fields[name]);
          off, truncated := Append(out, off, truncated, line, written);
          written := written + line;
        }
      }
      assert written + "" == written;
    }
  }

  /** The buffer the save functions format into. */
  const SAVE_MAX: nat := 1024

  method StrLen(s: array<char>) returns (n: nat)
    requires exists i :: 0 <= i < s.Length && s[i] == NUL
    ensures n < s.Length && s[n] == NUL && forall i :: 0 <= i < n ==> s[i] != NUL
  {
    n := 0;
    while s[n] != NUL
      invariant n < s.Length && forall i :: 0 <= i < n ==> s[i] != NUL
      decreases s.Length - n
    {
      n := n + 1;
    }
  }

  lemma Regroup(a: string, b: string, c: string)
    ensures a + (b + c) == (a + b) + c
  {
  }

  lemma TextStep(table: seq<Entry>, width: nat, cfg: Config, i: nat, written: string)
    requires i < |table|
    ensures var rest := TextFrom(table, width, cfg, i + 1);
            written + TextFrom(table, width, cfg, i) ==
            if IsSet(table[i], cfg) then (written + Written(table[i].name, width, cfg[table[i].name])) + rest else written + rest
  {
    var rest := TextFrom(table, width, cfg, i + 1);
    if IsSet(table[i], cfg) {
      var line := Written(table[i].name, width, cfg[table[i].name]);
      Regroup(written, line, rest);
    } else {
      assert "" + rest == rest;
    }
  }

  /** While the offset is inside the buffer, everything written so far is in it. */
  ghost predicate Progress(out: array<char>, off: nat, truncated: bool, written: string)
    reads out
  {
    && off <= |written| && (truncated || off == |written|)
    && (truncated ==> off >= out.Length)
    && (off < out.Length ==> out[..off] == written)
  }

  /** One formatted addition at the offset, if the offset is still inside the buffer. */
  method Append(out: array<char>, off: nat, truncated: bool, text: string, ghost written: string)
    returns (nowOff: nat, nowTruncated: bool)
    requires Progress(out, off, truncated, written)
    modifies out
    ensures Progress(out, nowOff, nowTruncated, written + text)
  {
    nowOff, nowTruncated := off, truncated;
    if off < out.Length {
      var n := Snprintf(out, off, text);
      nowOff := off + n;
      if nowOff < out.Length {
        assert out[..nowOff] == out[..off] + out[off..nowOff];
      }
    } else {
      nowTruncated := true;
    }
  }

  /** Write as much of the text as fits before the terminator; return the length of the whole text. */
  method Snprintf(out: array<char>, off: nat, text: string) returns (n: nat)
    requires off < out.Length
    modifies out
    ensures n == |text|
    ensures forall j :: 0 <= j < off ==> out[j] == old(out[j])
    ensures off + |text| < out.Length ==> out[off..off + |text|] == text && out[off + |text|] == NUL
    ensures off + |text| >= out.Length ==> out[out.Length - 1] == NUL
  {
    var i := 0;
    while i < |text| && off + i < out.Length - 1
      invariant 0 <= i <= |text| && off + i <= out.Length - 1
      invariant forall j :: 0 <= j < off ==> out[j] == old(out[j])
      invariant forall j :: 0 <= j < i ==> out[off + j] == text[j]
    {
      out[off + i] := text[i];
      i := i + 1;
    }
    out[off + i] := NUL;
    n := |text|;
  }

  // ------------------------------------------------------------------
  // What the two programs promise
  // ------------------------------------------------------------------

  /** The server's configuration survives being written and read into a fresh one. */
  lemma ServerRoundTrip(cfg: Config)
    requires ConfigFits(ServerTable(), cfg)
    ensures Load(ServerTable(), TextFrom(ServerTable(), SERVER_WIDTH, cfg, 0)) == cfg
  {
    ServerTableOk();
    ConfigRoundTrip(ServerTable(), SERVER_WIDTH, cfg);
  }

  /** The client's configuration survives being written and read into a fresh one. */
  lemma ClientRoundTrip(cfg: Config)
    requires ConfigFits(ClientTable(), cfg)
    ensures Load(ClientTable(), TextFrom(ClientTable(), CLIENT_WIDTH, cfg, 0)) == cfg
  {
    ClientTableOk();
    ConfigRoundTrip(ClientTable(), CLIENT_WIDTH, cfg);
  }

  /** Whatever the server's file holds, reading the text of what was loaded changes nothing. */
  lemma ServerStable(text: string)
    ensures var cfg := Load(ServerTable(), text);
            var again := TextFrom(ServerTable(), SERVER_WIDTH, cfg, 0);
            Load(ServerTable(), again) == cfg && NulFree(again)
  {
    ServerTableOk();
    ReloadStable(ServerTable(), SERVER_WIDTH, text);
  }

  /** The same for the client. */
  lemma ClientStable(text: string)
    ensures var cfg := Load(ClientTable(), text);
            var again := TextFrom(ClientTable(), CLIENT_WIDTH, cfg, 0);
            Load(ClientTable(), again) == cfg && NulFree(again)
  {
    ClientTableOk();
    ReloadStable(ClientTable(), CLIENT_WIDTH, text);
  }

  /** A client configuration of two host and file names of 511 characters. */
  function LongNames(): Config {
    var s := seq(VALUE_MAX - 1, i => 'a');
    map["server_host" := Text(s), "parts_file" := Text(s)]
  }

  /** The client can load a file that it cannot save again: its text does not fit the buffer. */
  lemma LoadedButNotSaved()
    ensures var text := TextFrom(ClientTable(), CLIENT_WIDTH, LongNames(), 0);
            ConfigFits(ClientTable(), LongNames()) && Load(ClientTable(), text) == LongNames() && |text| >= SAVE_MAX
  {
    LongNamesFit();
    ClientRoundTrip(LongNames());
    var table, cfg := ClientTable(), LongNames();
    TextAtLeast(table, CLIENT_WIDTH, cfg, 0, 2);
    TextAtLeast(table, CLIENT_WIDTH, cfg, 3, 3);
  }

  lemma LongNamesFit()
    ensures ConfigFits(ClientTable(), LongNames())
  {
    ClientTableOk();
    var table, cfg := ClientTable(), LongNames();
    LookupName(table, 2);
    LookupName(table, 3);
    forall k | k in cfg ensures KeyFits(table, k, cfg[k]) {
      assert k == table[2].name || k == table[3].name;
    }
  }

  /** A field that is set adds at least its value to the text. */
  lemma {:induction false} TextAtLeast(table: seq<Entry>, width: nat, cfg: Config, i: nat, k: nat)
    requires i <= k < |table| && IsSet(table[k], cfg)
    ensures |TextFrom(table, width, cfg, i)| > |ValueText(cfg[table[k].name])| + |TextFrom(table, width, cfg, k + 1)|
    decreases k - i
  {
    if i < k {
      TextAtLeast(table, width, cfg, i + 1, k);
    }
  }
}
