/** Escaping of option values by the launcher, and the two-level split that undoes it. */
module Escape {
  import opened Options

  predicate Special(c: char) {
    c == '\\' || c == ':' || c == ','
  }

  // ---- The launcher ---------------------------------------------------------------------------------

  /** str.replace of one character. */
  function Replace(s: string, c: char, subst: string): string {
    if s == "" then "" else Replace(s[..|s| - 1], c, subst) + if s[|s| - 1] == c then subst else [s[|s| - 1]]
  }

  /** Three replacements, one after another. */
  function LauncherEscape(s: string): string {
    Replace(Replace(Replace(s, '\\', "\\\\"), ':', "\\:"), ',', "\\,")
  }

  /** A backslash before every special character. */
  function Escaped(s: string): string {
    if s == "" then "" else Escaped(s[..|s| - 1]) + EscapedChar(s[|s| - 1])
  }

  function EscapedChar(c: char): string {
    if Special(c) then ['\\', c] else [c]
  }

  lemma {:induction false} ReplaceAppend(s: string, t: string, c: char, subst: string)
    ensures Replace(s + t, c, subst) == Replace(s, c, subst) + Replace(t, c, subst)
  {
    if t == "" {
      assert s + t == s;
    } else {
      ReplaceAppend(s, t[..|t| - 1], c, subst);
      assert (s + t)[..|s + t| - 1] == s + t[..|t| - 1];
    }
  }

  lemma ReplaceOne(d: char, c: char, subst: string)
    ensures Replace([d], c, subst) == if d == c then subst else [d]
  {
    assert [d][..0] == "";
    assert "" + subst == subst && "" + [d] == [d];
  }

  lemma ReplacePair(a: char, b: char, c: char, subst: string)
    requires a != c && b != c
    ensures Replace([a, b], c, subst) == [a, b]
  {
    assert [a, b] == [a] + [b];
    ReplaceAppend([a], [b], c, subst);
    ReplaceOne(a, c, subst);
    ReplaceOne(b, c, subst);
  }

  /** What the replacements make of one character. */
  lemma LauncherEscapeOne(c: char)
    ensures LauncherEscape([c]) == EscapedChar(c)
  {
    ReplaceOne(c, '\\', "\\\\");
    if c == '\\' {
      ReplacePair('\\', '\\', ':', "\\:");
      ReplacePair('\\', '\\', ',', "\\,");
    } else {
      ReplaceOne(c, ':', "\\:");
      if c == ':' {
        ReplacePair('\\', ':', ',', "\\,");
      } else {
        ReplaceOne(c, ',', "\\,");
      }
    }
  }

  /** The three sequential replacements are the character-wise escape. */
  lemma {:induction false} LauncherEscapes(s: string)
    ensures LauncherEscape(s) == Escaped(s)
  {
    if s != "" {
      var init, c := s[..|s| - 1], s[|s| - 1];
      assert LauncherEscape(s) == LauncherEscape(init) + LauncherEscape([c]) by {
        assert s == init + [c];
        LauncherEscapeAppend(init, [c]);
      }
      assert LauncherEscape(init) == Escaped(init) by { LauncherEscapes(init); }
      assert LauncherEscape([c]) == EscapedChar(c) by { LauncherEscapeOne(c); }
    }
  }

  lemma LauncherEscapeAppend(s: string, t: string)
    ensures LauncherEscape(s + t) == LauncherEscape(s) + LauncherEscape(t)
  {
    var s1, t1 := Replace(s, '\\', "\\\\"), Replace(t, '\\', "\\\\");
    ReplaceAppend(s, t, '\\', "\\\\");
    ReplaceAppend(s1, t1, ':', "\\:");
    ReplaceAppend(Replace(s1, ':', "\\:"), Replace(t1, ':', "\\:"), ',', "\\,");
  }

  // ---- escapeSplit ----------------------------------------------------------------------------------

  datatype Scanner = Scanner(ret: seq<string>, oss: string, escaped: bool)

  const SCAN := Scanner([], "", false)

  function Next(sc: Scanner, c: char, delim: char): Outcome<Scanner> {
    if sc.escaped then (if Special(c) then Ok(Scanner(sc.ret, sc.oss + [c], false)) else Stop)
    else if c == '\\' then Ok(sc.(escaped := true))
    else if c == delim then Ok(Scanner(sc.ret + [sc.oss], "", false))
    else Ok(sc.(oss := sc.oss + [c]))
  }

  function Scan(sc: Scanner, s: string, delim: char): Outcome<Scanner> {
    if s == "" then Ok(sc)
    else
      var before := Scan(sc, s[..|s| - 1], delim);
      if before.Stop? then Stop else Next(before.value, s[|s| - 1], delim)
  }

  /** The fields of s, unescaped. Stops at a bad escape and at a trailing backslash. */
  function Split(s: string, delim: char): Outcome<seq<string>> {
    var sc := Scan(SCAN, s, delim);
    if sc.Stop? || sc.value.escaped then Stop else Ok(sc.value.ret + [sc.value.oss])
  }

  method EscapeSplit(str: string, delim: char) returns (r: Outcome<seq<string>>)
    ensures r == Split(str, delim)
  {
    var ret: seq<string>, oss, escaped := [], "", false;
    for i := 0 to |str|
      invariant Scan(SCAN, str[..i], delim) == Ok(Scanner(ret, oss, escaped))
    {
      var c := str[i];
      assert str[..i + 1][..i] == str[..i];
      if escaped {
        if c != ',' && c != ':' && c != '\\' {
          ScanStops(SCAN, str, i + 1, delim);
          return Stop;
        }
        oss := oss + [c];
        escaped := false;
      } else if c == '\\' {
        escaped := true;
      } else if c == delim {
        ret := ret + [oss];
        oss := "";
      } else {
        oss := oss + [c];
      }
    }
    assert str[..|str|] == str;
    if escaped { return Stop; }
    return Ok(ret + [oss]);
  }

  lemma {:induction false} ScanAppend(sc: Scanner, s: string, t: string, delim: char)
    ensures Scan(sc, s + t, delim) == var b := Scan(sc, s, delim); if b.Stop? then Stop else Scan(b.value, t, delim)
  {
    if t == "" {
      assert s + t == s;
    } else {
      ScanAppend(sc, s, t[..|t| - 1], delim);
      assert (s + t)[..|s + t| - 1] == s + t[..|t| - 1];
    }
  }

  lemma ScanStops(sc: Scanner, s: string, k: nat, delim: char)
    requires k <= |s| && Scan(sc, s[..k], delim).Stop?
    ensures Scan(sc, s, delim).Stop?
  {
    assert s[..k] + s[k..] == s;
    ScanAppend(sc, s[..k], s[k..], delim);
  }

  lemma ScanOne(sc: Scanner, c: char, delim: char)
    ensures Scan(sc, [c], delim) == Next(sc, c, delim)
  {
    assert [c][..0] == "";
  }

  // ---- Joining and splitting ------------------------------------------------------------------------

  function Join(fields: seq<string>, delim: char): string
    requires fields != []
  {
    if |fields| == 1 then fields[0] else Join(fields[..|fields| - 1], delim) + [delim] + fields[|fields| - 1]
  }

  function Each(f: string -> string, fields: seq<string>): (r: seq<string>)
    ensures |r| == |fields|
  {
    if fields == [] then [] else Each(f, fields[..|fields| - 1]) + [f(fields[|fields| - 1])]
  }

  predicate IsDelimiter(c: char) {
    c == ':' || c == ','
  }

  lemma ScanEscapedChar(sc: Scanner, c: char, delim: char)
    requires IsDelimiter(delim) && !sc.escaped
    ensures Scan(sc, EscapedChar(c), delim) == Ok(sc.(oss := sc.oss + [c]))
  {
    if Special(c) {
      assert ['\\', c][..1] == ['\\'];
      ScanOne(sc, '\\', delim);
    } else {
      ScanOne(sc, c, delim);
    }
  }

  /** An escaped text is read back as it was. */
  lemma {:induction false} ScanEscaped(ret: seq<string>, oss: string, s: string, delim: char)
    requires IsDelimiter(delim)
    ensures Scan(Scanner(ret, oss, false), Escaped(s), delim) == Ok(Scanner(ret, oss + s, false))
  {
    if s == "" {
      assert oss + s == oss;
    } else {
      var init, c := s[..|s| - 1], s[|s| - 1];
      ScanEscaped(ret, oss, init, delim);
      ScanOneMore(Scanner(ret, oss, false), Escaped(init), Scanner(ret, oss + init, false), c, delim);
      assert oss + init + [c] == oss + s;
    }
  }

  lemma ScanOneMore(before: Scanner, text: string, after: Scanner, c: char, delim: char)
    requires IsDelimiter(delim) && Scan(before, text, delim) == Ok(after) && !after.escaped
    ensures Scan(before, text + EscapedChar(c), delim) == Ok(after.(oss := after.oss + [c]))
  {
    ScanAppend(before, text, EscapedChar(c), delim);
    ScanEscapedChar(after, c, delim);
  }

  /** Wherever a field begins, text t is read as s. */
  ghost predicate ReadAs(t: string, s: string, delim: char) {
    forall ret, oss :: Scan(Scanner(ret, oss, false), t, delim) == Ok(Scanner(ret, oss + s, false))
  }

  lemma {:induction false} ScanJoined(texts: seq<string>, fields: seq<string>, delim: char)
    requires |texts| == |fields| > 0 && delim != '\\'
             && forall i | 0 <= i < |fields| :: ReadAs(texts[i], fields[i], delim)
    ensures Scan(SCAN, Join(texts, delim), delim) == Ok(Scanner(fields[..|fields| - 1], fields[|fields| - 1], false))
  {
    var n := |fields| - 1;
    assert ReadAs(texts[n], fields[n], delim);
    if n == 0 {
      assert "" + fields[0] == fields[0];
      assert fields[..0] == [];
    } else {
      ScanJoined(texts[..n], fields[..n], delim);
      ScanAppend(SCAN, Join(texts[..n], delim) + [delim], texts[n], delim);
      ScanAppend(SCAN, Join(texts[..n], delim), [delim], delim);
      ScanOne(Scanner(fields[..n][..n - 1], fields[n - 1], false), delim, delim);
      assert fields[..n][..n - 1] + [fields[n - 1]] == fields[..n];
      assert "" + fields[n] == fields[n];
    }
  }

  lemma SplitTexts(texts: seq<string>, fields: seq<string>, delim: char)
    requires |texts| == |fields| > 0 && delim != '\\'
             && forall i | 0 <= i < |fields| :: ReadAs(texts[i], fields[i], delim)
    ensures Split(Join(texts, delim), delim) == Ok(fields)
  {
    ScanJoined(texts, fields, delim);
    assert fields[..|fields| - 1] + [fields[|fields| - 1]] == fields;
  }

  /** Splitting the join of escaped fields returns the fields. */
  lemma SplitJoin(fields: seq<string>, delim: char)
    requires fields != [] && IsDelimiter(delim)
    ensures Split(Join(Each(Escaped, fields), delim), delim) == Ok(fields)
  {
    forall i | 0 <= i < |fields| ensures ReadAs(Each(Escaped, fields)[i], fields[i], delim) {
      EachAt(Escaped, fields, i);
      forall ret, oss
        ensures Scan(Scanner(ret, oss, false), Escaped(fields[i]), delim) == Ok(Scanner(ret, oss + fields[i], false))
      {
        ScanEscaped(ret, oss, fields[i], delim);
      }
    }
    SplitTexts(Each(Escaped, fields), fields, delim);
  }

  lemma {:induction false} EachAt(f: string -> string, fields: seq<string>, i: nat)
    requires i < |fields|
    ensures Each(f, fields)[i] == f(fields[i])
  {
    if i < |fields| - 1 { EachAt(f, fields[..|fields| - 1], i); }
  }

  // ---- Two levels -----------------------------------------------------------------------------------

  /** The values of an option: split at ':', then every part at ','. */
  function SplitEach(parts: seq<string>): Outcome<seq<seq<string>>> {
    if parts == [] then Ok([])
    else
      var before, last := SplitEach(parts[..|parts| - 1]), Split(parts[|parts| - 1], ',');
      if before.Stop? || last.Stop? then Stop else Ok(before.value + [last.value])
  }

  function SplitTwice(s: string): Outcome<seq<seq<string>>> {
    var parts := Split(s, ':');
    if parts.Stop? then Stop else SplitEach(parts.value)
  }

  method ParseValues(optarg: string) returns (r: Outcome<seq<seq<string>>>)
    ensures r == SplitTwice(optarg)
  {
    var parts := EscapeSplit(optarg, ':');
    if parts.Stop? { return Stop; }
    var all: seq<seq<string>> := [];
    for i := 0 to |parts.value|
      invariant SplitEach(parts.value[..i]) == Ok(all)
    {
      var values := EscapeSplit(parts.value[i], ',');
      assert parts.value[..i + 1][..i] == parts.value[..i];
      if values.Stop? {
        SplitEachStops(parts.value, i + 1);
        return Stop;
      }
      all := all + [values.value];
    }
    assert parts.value[..|parts.value|] == parts.value;
    return Ok(all);
  }

  lemma {:induction false} SplitEachStops(parts: seq<string>, k: nat)
    requires k <= |parts| && SplitEach(parts[..k]).Stop?
    ensures SplitEach(parts).Stop?
  {
    if k < |parts| {
      assert parts[..|parts| - 1][..k] == parts[..k];
      SplitEachStops(parts[..|parts| - 1], k);
    } else {
      assert parts[..k] == parts;
    }
  }

  lemma SplitEachAppend(parts: seq<string>, part: string, table: seq<seq<string>>, row: seq<string>)
    requires SplitEach(parts) == Ok(table) && Split(part, ',') == Ok(row)
    ensures SplitEach(parts + [part]) == Ok(table + [row])
  {
    assert (parts + [part])[..|parts|] == parts;
  }

  predicate Full(table: seq<seq<string>>) {
    forall i | 0 <= i < |table| :: table[i] != []
  }

  /** One text per row: its fields, each passed through f, with commas between. */
  function Rows(f: string -> string, table: seq<seq<string>>): (r: seq<string>)
    requires Full(table)
    ensures |r| == |table|
  {
    if table == [] then [] else Rows(f, table[..|table| - 1]) + [Join(Each(f, table[|table| - 1]), ',')]
  }

  /** At the level of ':' a comma is an ordinary character: splitting undoes one escape of every field. */
  lemma {:induction false} ScanRow(ret: seq<string>, f: string -> string, g: string -> string, row: seq<string>)
    requires row != [] && forall s :: f(s) == Escaped(g(s))
    ensures Scan(Scanner(ret, "", false), Join(Each(f, row), ','), ':')
            == Ok(Scanner(ret, Join(Each(g, row), ','), false))
  {
    var n, fs, gs := |row| - 1, Each(f, row), Each(g, row);
    var sc := Scanner(ret, "", false);
    if n == 0 {
      ScanEscaped(ret, "", g(row[0]), ':');
      assert "" + g(row[0]) == g(row[0]);
    } else {
      ScanRow(ret, f, g, row[..n]);
      assert fs[..n] == Each(f, row[..n]) && gs[..n] == Each(g, row[..n]);
      ScanAppend(sc, Join(fs[..n], ',') + [','], fs[n], ':');
      ScanAppend(sc, Join(fs[..n], ','), [','], ':');
      ScanOne(Scanner(ret, Join(gs[..n], ','), false), ',', ':');
      ScanEscaped(ret, Join(gs[..n], ',') + [','], g(row[n]), ':');
    }
  }

  lemma {:induction false} ScanRows(f: string -> string, g: string -> string, table: seq<seq<string>>)
    requires table != [] && Full(table) && forall s :: f(s) == Escaped(g(s))
    ensures var gs := Rows(g, table);
            Scan(SCAN, Join(Rows(f, table), ':'), ':') == Ok(Scanner(gs[..|gs| - 1], gs[|gs| - 1], false))
  {
    var n, fs, gs := |table| - 1, Rows(f, table), Rows(g, table);
    if n == 0 {
      ScanRow([], f, g, table[0]);
      assert gs[..0] == [];
    } else {
      ScanRows(f, g, table[..n]);
      assert fs[..n] == Rows(f, table[..n]) && gs[..n] == Rows(g, table[..n]);
      ScanAppend(SCAN, Join(fs[..n], ':') + [':'], fs[n], ':');
      ScanAppend(SCAN, Join(fs[..n], ':'), [':'], ':');
      ScanOne(Scanner(gs[..n][..n - 1], gs[n - 1], false), ':', ':');
      assert gs[..n][..n - 1] + [gs[n - 1]] == gs[..n];
      ScanRow(gs[..n], f, g, table[n]);
    }
  }

  lemma OuterSplit(f: string -> string, g: string -> string, table: seq<seq<string>>)
    requires table != [] && Full(table) && forall s :: f(s) == Escaped(g(s))
    ensures Split(Join(Rows(f, table), ':'), ':') == Ok(Rows(g, table))
  {
    ScanRows(f, g, table);
    var gs := Rows(g, table);
    assert gs[..|gs| - 1] + [gs[|gs| - 1]] == gs;
  }

  lemma {:induction false} SplitRows(table: seq<seq<string>>)
    requires Full(table)
    ensures SplitEach(Rows(Escaped, table)) == Ok(table)
  {
    if table != [] {
      var n := |table| - 1;
      var rows, last := Rows(Escaped, table[..n]), Join(Each(Escaped, table[n]), ',');
      assert Rows(Escaped, table) == rows + [last];
      assert SplitEach(rows + [last]) == Ok(table[..n] + [table[n]]) by {
        SplitRows(table[..n]);
        SplitJoin(table[n], ',');
        SplitEachAppend(rows, last, table[..n], table[n]);
      }
      assert table[..n] + [table[n]] == table;
    }
  }

  /** Escaping every field twice is what two levels of splitting undo. */
  lemma EscapedTwice(table: seq<seq<string>>)
    requires table != [] && Full(table)
    ensures SplitTwice(Join(Rows(s => Escaped(Escaped(s)), table), ':')) == Ok(table)
  {
    var twice: string -> string := s => Escaped(Escaped(s));
    OuterSplit(twice, Escaped, table);
    SplitRows(table);
  }

  // ---- Escaping once, as the launcher does ----------------------------------------------------------

  function Count(s: string, c: char): nat {
    if s == "" then 0 else Count(s[..|s| - 1], c) + if s[|s| - 1] == c then 1 else 0
  }

  function TotalLength(fields: seq<string>): nat {
    if fields == [] then 0 else TotalLength(fields[..|fields| - 1]) + |fields[|fields| - 1]|
  }

  /** Without a backslash nothing is lost: every delimiter ends a field, every other character is kept. */
  lemma {:induction false} ScanPlain(s: string, delim: char)
    requires '\\' !in s && delim != '\\'
    ensures Scan(SCAN, s, delim).Ok?
    ensures var sc := Scan(SCAN, s, delim).value; !sc.escaped && |sc.ret| == Count(s, delim)
  {
    if s != "" {
      assert '\\' !in s[..|s| - 1];
      ScanPlain(s[..|s| - 1], delim);
    }
  }

  /** A backslash costs a character: what comes out is shorter than what went in. */
  lemma {:induction false} ScanLength(s: string, delim: char)
    requires Scan(SCAN, s, delim).Ok?
    ensures var sc := Scan(SCAN, s, delim).value;
            && TotalLength(sc.ret) + |sc.oss| + |sc.ret| <= |s|
            && ('\\' in s ==> TotalLength(sc.ret) + |sc.oss| + |sc.ret| < |s|)
  {
    if s != "" {
      var init := s[..|s| - 1];
      ScanLength(init, delim);
      var before, after := Scan(SCAN, init, delim).value, Scan(SCAN, s, delim).value;
      assert s == init + [s[|s| - 1]];
      if after.ret != before.ret { assert after.ret[..|after.ret| - 1] == before.ret; }
    }
  }

  lemma {:induction false} CountJoin(fields: seq<string>, delim: char)
    requires fields != []
    ensures |Join(fields, delim)| == TotalLength(fields) + |fields| - 1
    ensures Count(Join(fields, delim), delim) >= |fields| - 1
    ensures Count(Join(fields, delim), delim) == |fields| - 1 <==> forall i | 0 <= i < |fields| :: delim !in fields[i]
    ensures forall c | c != delim :: c in Join(fields, delim) <==> exists i :: 0 <= i < |fields| && c in fields[i]
  {
    var n := |fields| - 1;
    if n == 0 {
      CountZero(fields[0], delim);
      assert fields[..0] == [];
    } else {
      CountJoin(fields[..n], delim);
      CountAppend(Join(fields[..n], delim), [delim], delim);
      CountAppend(Join(fields[..n], delim) + [delim], fields[n], delim);
      CountZero(fields[n], delim);
      assert [delim][..0] == "";
    }
  }

  lemma {:induction false} CountZero(s: string, c: char)
    ensures Count(s, c) == 0 <==> c !in s
  {
    if s != "" {
      CountZero(s[..|s| - 1], c);
      assert s == s[..|s| - 1] + [s[|s| - 1]];
    }
  }

  lemma {:induction false} CountAppend(s: string, t: string, c: char)
    ensures Count(s + t, c) == Count(s, c) + Count(t, c)
  {
    if t == "" {
      assert s + t == s;
    } else {
      CountAppend(s, t[..|t| - 1], c);
      assert (s + t)[..|s + t| - 1] == s + t[..|t| - 1];
    }
  }

  predicate Plain(fields: seq<string>) {
    forall i | 0 <= i < |fields| :: ',' !in fields[i] && '\\' !in fields[i]
  }

  lemma {:induction false} ScanUnescaped(ret: seq<string>, oss: string, s: string)
    requires ',' !in s && '\\' !in s
    ensures Scan(Scanner(ret, oss, false), s, ',') == Ok(Scanner(ret, oss + s, false))
  {
    if s == "" {
      assert oss + s == oss;
    } else {
      var init := s[..|s| - 1];
      assert forall c | c in init :: c in s;
      ScanUnescaped(ret, oss, init);
      assert s[|s| - 1] in s;
      assert oss + init + [s[|s| - 1]] == oss + s;
    }
  }

  /** Unescaped fields survive a split at commas exactly if they hold neither comma nor backslash. */
  lemma RawSplit(fields: seq<string>)
    requires fields != []
    ensures Split(Join(fields, ','), ',') == Ok(fields) <==> Plain(fields)
  {
    if Plain(fields) {
      forall i | 0 <= i < |fields| ensures ReadAs(fields[i], fields[i], ',') {
        forall ret, oss
          ensures Scan(Scanner(ret, oss, false), fields[i], ',') == Ok(Scanner(ret, oss + fields[i], false))
        {
          ScanUnescaped(ret, oss, fields[i]);
        }
      }
      SplitTexts(fields, fields, ',');
    }
    if Split(Join(fields, ','), ',') == Ok(fields) { RawSplitOnlyIf(fields); }
  }

  lemma RawSplitOnlyIf(fields: seq<string>)
    requires fields != [] && Split(Join(fields, ','), ',') == Ok(fields)
    ensures Plain(fields)
  {
    var s := Join(fields, ',');
    var sc := Scan(SCAN, s, ',').value;
    CountJoin(fields, ',');
    ScanLength(s, ',');
    assert fields[..|fields| - 1] == sc.ret && fields[|fields| - 1] == sc.oss;
    assert '\\' !in s;
    ScanPlain(s, ',');
  }

  predicate AllPlain(table: seq<seq<string>>) {
    table == [] || (AllPlain(table[..|table| - 1]) && Plain(table[|table| - 1]))
  }

  lemma {:induction false} SplitRawRows(table: seq<seq<string>>)
    requires Full(table)
    ensures SplitEach(Rows(s => s, table)) == Ok(table) <==> AllPlain(table)
  {
    if table != [] {
      var n := |table| - 1;
      var same: string -> string := s => s;
      SplitRawRows(table[..n]);
      EachSame(table[n]);
      RawSplit(table[n]);
      var rows := Rows(same, table);
      assert rows[..n] == Rows(same, table[..n]) && rows[n] == Join(table[n], ',');
      assert table[..n] + [table[n]] == table;
      if SplitEach(rows) == Ok(table) {
        assert SplitEach(rows[..n]).value == table[..n];
      }
    }
  }

  lemma {:induction false} EachSame(fields: seq<string>)
    ensures Each(s => s, fields) == fields
  {
    if fields != [] { EachSame(fields[..|fields| - 1]); }
  }

  /** Escaping every field once, as the launcher does, survives the two splits exactly for plain fields. */
  lemma EscapedOnce(table: seq<seq<string>>)
    requires table != [] && Full(table)
    ensures SplitTwice(Join(Rows(Escaped, table), ':')) == Ok(table) <==> AllPlain(table)
  {
    var same: string -> string := s => s;
    OuterSplit(Escaped, same, table);
    SplitRawRows(table);
  }
}
