// Translating column types between Presto and Hive, through the index, split and
// trim parsing of map types.
module ColumnTypes {
  import opened Sequences

  datatype Column = Column(name: string, typ: string)

  // Panic is the slice expression of a map type whose closing bracket comes
  // before its opening one.
  datatype Conversion = Ok(col: Column) | Err | Panic

  // --------------------------------------------------------- strings functions

  // unicode.ToUpper, as far as its result can be ASCII.
  function UpperChar(c: char): char {
    if 'a' <= c <= 'z' then (c as int - 32) as char
    else if c == '\U{0131}' then 'I'
    else if c == '\U{017F}' then 'S'
    else c
  }

  function Upper(s: string): (u: string)
    ensures |u| == |s|
  {
    seq(|s|, i requires 0 <= i < |s| => UpperChar(s[i]))
  }

  // unicode.IsSpace
  predicate IsSpace(c: char) {
    '\t' <= c <= '\r' || c == ' ' || c == '\U{0085}' || c == '\U{00A0}' || c == '\U{1680}'
    || '\U{2000}' <= c <= '\U{200A}' || c == '\U{2028}' || c == '\U{2029}' || c == '\U{202F}' || c == '\U{205F}'
    || c == '\U{3000}'
  }

  function TrimLeft(s: string): string {
    if s != [] && IsSpace(s[0]) then TrimLeft(s[1..]) else s
  }

  function TrimRight(s: string): string {
    if s != [] && IsSpace(s[|s| - 1]) then TrimRight(s[..|s| - 1]) else s
  }

  function TrimSpace(s: string): string {
    TrimRight(TrimLeft(s))
  }

  predicate At(s: string, p: string, i: nat) {
    i + |p| <= |s| && s[i..i + |p|] == p
  }

  predicate Contains(s: string, p: string) {
    exists i :: 0 <= i <= |s| && At(s, p, i)
  }

  // ------------------------------------------------------------- simple types

  const COMMON := ["TINYINT", "SMALLINT", "INT", "INTEGER", "BIGINT", "FLOAT", "DOUBLE", "BOOLEAN", "CHAR", "DATE",
                   "TIME", "TIMESTAMP", "BINARY"]

  function SimpleHiveToPresto(t: string): string {
    var u := Upper(t);
    if u in COMMON || u == "VARCHAR" then t
    else if u == "STRING" then "VARCHAR"
    else ""
  }

  function SimplePrestoToHive(t: string): string {
    var u := Upper(t);
    if u in COMMON then u
    else if u == "REAL" then "FLOAT"
    else if u == "VARCHAR" then "STRING"
    else ""
  }

  // ---------------------------------------------------------------- map types

  datatype Parts = Parts(key: string, value: string) | BadParts | SlicePanic

  // The key and value type between the brackets of an upper-cased map type.
  function MapParts(u: string, open: char, close: char): Parts {
    if Contains(u, "ARRAY") then BadParts
    else
      var begin, end := IndexOf(u, open), IndexOf(u, close);
      if begin == -1 || end == -1 || begin + 1 >= |u| then BadParts
      else if end < begin + 1 then SlicePanic
      else
        var inner := u[begin + 1..end];
        var comma := IndexOf(inner, ',');
        if comma == -1 then BadParts
        else Parts(TrimSpace(inner[..comma]), TrimSpace(inner[comma + 1..]))
  }

  function HiveColumnToPrestoColumn(c: Column): Conversion {
    var simple, u := SimpleHiveToPresto(c.typ), Upper(c.typ);
    if simple != "" then Ok(Column(c.name, simple))
    else if !Contains(u, "MAP") then Err
    else match MapParts(u, '<', '>')
      case BadParts => Err
      case SlicePanic => Panic
      case Parts(k, v) =>
        if SimpleHiveToPresto(k) == "" || SimpleHiveToPresto(v) == "" then Err
        else Ok(Column(c.name, "map(" + SimpleHiveToPresto(k) + "," + SimpleHiveToPresto(v) + ")"))
  }

  function PrestoColumnToHiveColumn(c: Column): Conversion {
    var simple, u := SimplePrestoToHive(c.typ), Upper(c.typ);
    if simple != "" then Ok(Column(c.name, simple))
    else if !Contains(u, "MAP") then Err
    else match MapParts(u, '(', ')')
      case BadParts => Err
      case SlicePanic => Panic
      case Parts(k, v) =>
        if SimplePrestoToHive(k) == "" || SimplePrestoToHive(v) == "" then Err
        else Ok(Column(c.name, "MAP<" + SimplePrestoToHive(k) + "," + SimplePrestoToHive(v) + ">"))
  }

  // The first conversion that fails decides; otherwise all are converted.
  datatype Conversions = AllOk(cols: seq<Column>) | Failed(at: nat, why: Conversion)

  method PrestoColumnsToHiveColumns(columns: seq<Column>) returns (r: Conversions)
    ensures r.AllOk? ==> |r.cols| == |columns|
                         && forall i :: 0 <= i < |columns| ==> PrestoColumnToHiveColumn(columns[i]) == Ok(r.cols[i])
    ensures r.Failed? ==> r.at < |columns| && PrestoColumnToHiveColumn(columns[r.at]) == r.why && !r.why.Ok?
                          && forall i :: 0 <= i < r.at ==> PrestoColumnToHiveColumn(columns[i]).Ok?
  {
    hide PrestoColumnToHiveColumn;
    var newCols: seq<Column> := [];
    for i := 0 to |columns|
      invariant |newCols| == i
      invariant forall j :: 0 <= j < i ==> PrestoColumnToHiveColumn(columns[j]) == Ok(newCols[j])
    {
      var c := PrestoColumnToHiveColumn(columns[i]);
      if !c.Ok? {
        return Failed(i, c);
      }
      newCols := newCols + [c.col];
    }
    r := AllOk(newCols);
  }

  // ------------------------------------------------------------------ the laws

  // The simple Hive types that a conversion from Presto can give.
  predicate Canonical(t: string) {
    t in COMMON || t == "STRING"
  }

  predicate CanonicalType(t: string) {
    Canonical(t) || exists k, v | k in COMMON + ["STRING"] && v in COMMON + ["STRING"] :: t == MapType(k, v)
  }

  function MapType(k: string, v: string): string {
    "MAP<" + k + "," + v + ">"
  }

  // The Presto name of a canonical Hive type.
  function PrestoName(t: string): string {
    if t == "STRING" then "VARCHAR" else t
  }

  predicate Letter(c: char) {
    'A' <= c <= 'Z'
  }

  // Upper-case letters only, and never two Rs in a row.
  predicate Wordy(t: string) {
    (forall i :: 0 <= i < |t| ==> Letter(t[i])) && (forall i :: 0 <= i < |t| - 1 ==> !(t[i] == 'R' && t[i + 1] == 'R'))
  }

  // Upper-case letters and spaces, and never two Rs in a row.
  predicate Loose(t: string) {
    && (forall i :: 0 <= i < |t| ==> Letter(t[i]) || IsSpace(t[i]))
    && (forall i :: 0 <= i < |t| - 1 ==> !(t[i] == 'R' && t[i + 1] == 'R'))
  }

  lemma CanonicalIsWordy(t: string)
    requires Canonical(t)
    ensures Wordy(t) && t != "" && Wordy(PrestoName(t))
  {
    WordyNumbers();
    WordyOthers();
    hide Wordy;
  }

  lemma WordyNumbers()
    ensures Wordy("TINYINT") && Wordy("SMALLINT") && Wordy("INT") && Wordy("INTEGER") && Wordy("BIGINT")
    ensures Wordy("FLOAT") && Wordy("DOUBLE") && Wordy("REAL")
  {
  }

  lemma WordyOthers()
    ensures Wordy("BOOLEAN") && Wordy("CHAR") && Wordy("DATE") && Wordy("TIME") && Wordy("TIMESTAMP")
    ensures Wordy("BINARY") && Wordy("VARCHAR") && Wordy("STRING")
  {
  }

  lemma UpperOfWord(t: string)
    requires Wordy(t)
    ensures Upper(t) == t
  {
  }

  // The simple translations are inverse to each other on canonical types.
  lemma SimpleRoundTrip(t: string)
    requires Canonical(t)
    ensures SimpleHiveToPresto(t) == PrestoName(t) && SimplePrestoToHive(PrestoName(t)) == t && PrestoName(t) != ""
  {
    CanonicalIsWordy(t);
    UpperOfWord(t);
    UpperOfWord(PrestoName(t));
    assert "VARCHAR" !in COMMON && "STRING" !in COMMON;
  }

  lemma SimpleGivesCanonical(t: string)
    requires SimplePrestoToHive(t) != ""
    ensures Canonical(SimplePrestoToHive(t))
  {
    assert COMMON[5] == "FLOAT";
  }

  // A string of the form MAP, bracket, word, comma, word, bracket.
  function Shape(head: string, open: char, k: string, v: string, close: char): string {
    head + [open] + k + "," + v + [close]
  }

  ghost predicate Bracket(c: char) {
    c in "<>()"
  }

  lemma WordyIsLoose(t: string)
    requires Wordy(t)
    ensures Loose(t)
  {
  }

  lemma TrimWord(t: string)
    requires Wordy(t)
    ensures TrimSpace(t) == t
  {
  }

  // The parser reads back the key and the value, without the spaces around them.
  lemma PartsOfShape(k: string, v: string, open: char, close: char)
    requires Loose(k) && Loose(v) && Bracket(open) && Bracket(close) && open != close
    ensures MapParts(Shape("MAP", open, k, v, close), open, close) == Parts(TrimSpace(k), TrimSpace(v))
    ensures Contains(Shape("MAP", open, k, v, close), "MAP")
  {
    hide Loose, TrimSpace, Contains;
    var s := Shape("MAP", open, k, v, close);
    NoArray(k, v, open, close);
    HasMap(k, v, open, close);
    var end := 5 + |k| + |v|;
    assert |s| == end + 1;
    Positions(k, v, open, close);
    IndexIs(s, open, 3);
    IndexIs(s, close, end);
    var inner := s[4..end];
    assert inner == k + "," + v;
    assert IsFirst(inner, ',', |k|) by {
      WordChars(k);
    }
    IndexIs(inner, ',', |k|);
    assert inner[..|k|] == k && inner[|k| + 1..] == v;
  }

  lemma WordChars(t: string)
    requires Loose(t)
    ensures forall i :: 0 <= i < |t| ==> Letter(t[i]) || IsSpace(t[i])
  {
  }

  lemma Positions(k: string, v: string, open: char, close: char)
    requires Loose(k) && Loose(v) && Bracket(open) && Bracket(close) && open != close
    ensures var s := Shape("MAP", open, k, v, close);
      IsFirst(s, open, 3) && IsFirst(s, close, 5 + |k| + |v|)
  {
    WordChars(k);
    WordChars(v);
    hide Loose;
    var s := Shape("MAP", open, k, v, close);
    forall i | 0 <= i < |s| - 1
      ensures s[i] != close
    {
      if 4 <= i < 4 + |k| {
        assert s[i] == k[i - 4];
      } else if 5 + |k| <= i {
        assert s[i] == v[i - 5 - |k|];
      }
    }
  }

  lemma HasMap(k: string, v: string, open: char, close: char)
    ensures Contains(Shape("MAP", open, k, v, close), "MAP")
  {
    assert At(Shape("MAP", open, k, v, close), "MAP", 0);
  }

  lemma NoArray(k: string, v: string, open: char, close: char)
    requires Loose(k) && Loose(v) && Bracket(open) && Bracket(close)
    ensures !Contains(Shape("MAP", open, k, v, close), "ARRAY")
  {
    var s := Shape("MAP", open, k, v, close);
    forall i: nat | i + 5 <= |s|
      ensures !At(s, "ARRAY", i)
    {
      NoDoubleR(k, v, open, close, i + 1);
      assert s[i..i + 5][1] == s[i + 1] && s[i..i + 5][2] == s[i + 2];
    }
  }

  lemma NoDoubleR(k: string, v: string, open: char, close: char, i: nat)
    requires Loose(k) && Loose(v) && Bracket(open) && Bracket(close)
    requires i + 1 < |Shape("MAP", open, k, v, close)|
    ensures var s := Shape("MAP", open, k, v, close);
      !(s[i] == 'R' && s[i + 1] == 'R')
  {
    var s := Shape("MAP", open, k, v, close);
    if 4 <= i && i + 1 < 4 + |k| {
      assert s[i] == k[i - 4] && s[i + 1] == k[i - 3];
    } else if 5 + |k| <= i && i + 1 < 5 + |k| + |v| {
      var j := i - 5 - |k|;
      assert s[i] == v[j] && s[i + 1] == v[j + 1];
    }
  }

  // A bracketed type is not a simple type.
  lemma ShapeIsNotSimple(s: string)
    requires exists i :: 0 <= i < |s| && Bracket(s[i])
    ensures SimpleHiveToPresto(s) == "" && SimplePrestoToHive(s) == ""
  {
    var i :| 0 <= i < |s| && Bracket(s[i]);
    assert Upper(s)[i] == s[i];
    assert !Wordy(Upper(s));
    if Upper(s) in COMMON || Upper(s) == "STRING" {
      CanonicalIsWordy(Upper(s));
    }
    WordyNumbers();
    WordyOthers();
  }

  lemma UpperOfShape(k: string, v: string)
    requires Wordy(k) && Wordy(v)
    ensures Upper(MapType(k, v)) == Shape("MAP", '<', k, v, '>') == MapType(k, v)
    ensures Upper(PrestoMapType(k, v)) == Shape("MAP", '(', k, v, ')')
  {
    assert (forall i :: 0 <= i < |k| ==> Letter(k[i])) && forall i :: 0 <= i < |v| ==> Letter(v[i]);
    hide Wordy;
    var s, t := Shape("MAP", '<', k, v, '>'), Shape("MAP", '(', k, v, ')');
    assert MapType(k, v) == s;
    var m := PrestoMapType(k, v);
    assert |m| == |t|;
    forall i | 0 <= i < |t|
      ensures UpperChar(m[i]) == t[i] && UpperChar(s[i]) == s[i]
    {
      if 4 <= i < 4 + |k| {
        assert m[i] == k[i - 4] == t[i] == s[i];
      } else if 5 + |k| <= i < |t| - 1 {
        assert m[i] == v[i - 5 - |k|] == t[i] == s[i];
      }
    }
  }

  // Every canonical Hive type comes back from Presto unchanged.
  lemma CanonicalRoundTrip(name: string, t: string)
    requires CanonicalType(t)
    ensures HiveColumnToPrestoColumn(Column(name, t)).Ok?
    ensures PrestoColumnToHiveColumn(HiveColumnToPrestoColumn(Column(name, t)).col) == Ok(Column(name, t))
  {
    if Canonical(t) {
      SimpleRoundTrip(t);
    } else {
      var k, v :| k in COMMON + ["STRING"] && v in COMMON + ["STRING"] && t == MapType(k, v);
      MapRoundTrip(name, k, v);
    }
  }

  lemma MapRoundTrip(name: string, k: string, v: string)
    requires Canonical(k) && Canonical(v)
    ensures HiveColumnToPrestoColumn(Column(name, MapType(k, v))) ==
      Ok(Column(name, PrestoMapType(PrestoName(k), PrestoName(v))))
    ensures PrestoColumnToHiveColumn(Column(name, PrestoMapType(PrestoName(k), PrestoName(v)))) ==
      Ok(Column(name, MapType(k, v)))
  {
    CanonicalIsWordy(k);
    CanonicalIsWordy(v);
    SimpleRoundTrip(k);
    SimpleRoundTrip(v);
    hide *;
    HiveMap(name, k, v);
    PrestoMap(name, PrestoName(k), PrestoName(v));
  }

  function PrestoMapType(k: string, v: string): string {
    "map(" + k + "," + v + ")"
  }

  lemma HiveMap(name: string, k: string, v: string)
    requires Wordy(k) && Wordy(v) && SimpleHiveToPresto(k) != "" && SimpleHiveToPresto(v) != ""
    ensures HiveColumnToPrestoColumn(Column(name, MapType(k, v))) ==
      Ok(Column(name, PrestoMapType(SimpleHiveToPresto(k), SimpleHiveToPresto(v))))
  {
    hide Wordy, Contains, MapParts, Upper, SimpleHiveToPresto, SimplePrestoToHive;
    UpperOfShape(k, v);
    WordyIsLoose(k);
    WordyIsLoose(v);
    TrimWord(k);
    TrimWord(v);
    PartsOfShape(k, v, '<', '>');
    assert MapType(k, v)[3] == '<';
    ShapeIsNotSimple(MapType(k, v));
  }

  lemma PrestoMap(name: string, k: string, v: string)
    requires Wordy(k) && Wordy(v) && SimplePrestoToHive(k) != "" && SimplePrestoToHive(v) != ""
    ensures PrestoColumnToHiveColumn(Column(name, PrestoMapType(k, v))) ==
      Ok(Column(name, MapType(SimplePrestoToHive(k), SimplePrestoToHive(v))))
  {
    hide Wordy, Contains, MapParts, Upper, SimpleHiveToPresto, SimplePrestoToHive;
    UpperOfShape(k, v);
    WordyIsLoose(k);
    WordyIsLoose(v);
    TrimWord(k);
    TrimWord(v);
    PartsOfShape(k, v, '(', ')');
    assert PrestoMapType(k, v)[3] == '(';
    ShapeIsNotSimple(PrestoMapType(k, v));
  }

  // What a conversion from Presto gives is canonical, under the same name.
  lemma OutputIsCanonical(c: Column)
    requires PrestoColumnToHiveColumn(c).Ok?
    ensures CanonicalType(PrestoColumnToHiveColumn(c).col.typ) && PrestoColumnToHiveColumn(c).col.name == c.name
  {
    hide MapParts, Contains, Upper, SimplePrestoToHive;
    if SimplePrestoToHive(c.typ) != "" {
      SimpleGivesCanonical(c.typ);
    } else {
      var p := MapParts(Upper(c.typ), '(', ')');
      SimpleGivesCanonical(p.key);
      SimpleGivesCanonical(p.value);
      var k, v := SimplePrestoToHive(p.key), SimplePrestoToHive(p.value);
      assert PrestoColumnToHiveColumn(c).col.typ == MapType(k, v);
      assert k in COMMON + ["STRING"] && v in COMMON + ["STRING"];
    }
  }

  // Presto to Hive to Presto to Hive gives the Hive column of the first step, for
  // every type string that converts at all.
  lemma PrestoHivePrestoHive(c: Column)
    requires PrestoColumnToHiveColumn(c).Ok?
    ensures var h := PrestoColumnToHiveColumn(c).col;
      && HiveColumnToPrestoColumn(h).Ok?
      && PrestoColumnToHiveColumn(HiveColumnToPrestoColumn(h).col) == Ok(h)
  {
    hide CanonicalType, HiveColumnToPrestoColumn, PrestoColumnToHiveColumn;
    OutputIsCanonical(c);
    CanonicalRoundTrip(c.name, PrestoColumnToHiveColumn(c).col.typ);
  }

  // The other way round a Hive column survives exactly when its type is one that
  // the conversion from Presto can give.
  lemma HivePrestoHiveIff(c: Column)
    requires HiveColumnToPrestoColumn(c).Ok?
    ensures PrestoColumnToHiveColumn(HiveColumnToPrestoColumn(c).col) == Ok(c) <==> CanonicalType(c.typ)
  {
    hide CanonicalType, HiveColumnToPrestoColumn, PrestoColumnToHiveColumn;
    var p := HiveColumnToPrestoColumn(c).col;
    if PrestoColumnToHiveColumn(p) == Ok(c) {
      OutputIsCanonical(p);
    }
    if CanonicalType(c.typ) {
      CanonicalRoundTrip(c.name, c.typ);
    }
  }

  // The first closing bracket of a map type comes before the first opening one,
  // which is not the last character.
  predicate Swapped(u: string, open: char, close: char) {
    && Contains(u, "MAP") && !Contains(u, "ARRAY")
    && 0 <= IndexOf(u, close) < IndexOf(u, open) < |u| - 1
  }

  // Either conversion panics exactly for types that are not simple and have their
  // brackets swapped.
  lemma PanicsIff(c: Column)
    ensures PrestoColumnToHiveColumn(c) == Panic <==>
      SimplePrestoToHive(c.typ) == "" && Swapped(Upper(c.typ), '(', ')')
    ensures HiveColumnToPrestoColumn(c) == Panic <==>
      SimpleHiveToPresto(c.typ) == "" && Swapped(Upper(c.typ), '<', '>')
  {
    hide Contains, Upper, SimplePrestoToHive, SimpleHiveToPresto;
  }

  lemma SwappedBracketsPanic(name: string)
    ensures PrestoColumnToHiveColumn(Column(name, "MAP)(INT,INT")) == Panic
  {
    var t := "MAP)(INT,INT";
    SwappedFacts();
    assert Bracket(t[3]);
    hide *;
    PanicsIff(Column(name, t));
    ShapeIsNotSimple(t);
    NoRNoArray(t);
    assert |t| == 12;
  }

  lemma SwappedFacts()
    ensures var t := "MAP)(INT,INT";
      && Upper(t) == t && Contains(t, "MAP") && IndexOf(t, ')') == 3 && IndexOf(t, '(') == 4
      && forall j :: 0 <= j < |t| ==> t[j] != 'R'
  {
    var t := "MAP)(INT,INT";
    assert At(t, "MAP", 0);
    IndexIs(t, ')', 3);
    IndexIs(t, '(', 4);
  }

  lemma NoRNoArray(t: string)
    requires forall j :: 0 <= j < |t| ==> t[j] != 'R'
    ensures !Contains(t, "ARRAY")
  {
    forall i: nat | i + 5 <= |t|
      ensures !At(t, "ARRAY", i)
    {
      assert t[i..i + 5][1] == t[i + 1];
    }
  }

  // ------------------------------------------------------------------- trimming

  ghost predicate AllSpace(a: string) {
    forall i :: 0 <= i < |a| ==> IsSpace(a[i])
  }

  ghost predicate Trimmed(t: string) {
    t != [] ==> !IsSpace(t[0]) && !IsSpace(t[|t| - 1])
  }

  lemma {:induction false} TrimLeftIs(s: string) returns (a: string)
    ensures s == a + TrimLeft(s) && AllSpace(a) && (TrimLeft(s) != [] ==> !IsSpace(TrimLeft(s)[0]))
    decreases |s|
  {
    if s != [] && IsSpace(s[0]) {
      a := TrimLeftIs(s[1..]);
      Assoc([s[0]], a, TrimLeft(s[1..]));
      a := [s[0]] + a;
    } else {
      a := [];
      assert [] + s == s;
    }
  }

  lemma {:induction false} TrimRightIs(s: string) returns (b: string)
    ensures s == TrimRight(s) + b && AllSpace(b) && (TrimRight(s) != [] ==> !IsSpace(TrimRight(s)[|TrimRight(s)| - 1]))
    decreases |s|
  {
    var n := |s| - 1;
    if s != [] && IsSpace(s[n]) {
      b := TrimRightIs(s[..n]);
      Assoc(TrimRight(s[..n]), b, [s[n]]);
      assert s == s[..n] + [s[n]];
      b := b + [s[n]];
    } else {
      b := [];
      assert s + [] == s;
    }
  }

  // Only spaces are cut off, and none is left at either end.
  lemma TrimSpaceIs(s: string) returns (a: string, b: string)
    ensures s == a + TrimSpace(s) + b && AllSpace(a) && AllSpace(b) && Trimmed(TrimSpace(s))
  {
    a := TrimLeftIs(s);
    var l := TrimLeft(s);
    b := TrimRightIs(l);
    hide TrimLeft, TrimRight;
    Assoc(a, TrimRight(l), b);
    if TrimSpace(s) != [] {
      assert l[0] == TrimRight(l)[0];
    }
  }

  // There is only one way to do that.
  lemma TrimmedOnce(a: string, k: string, b: string, a': string, k': string, b': string)
    requires AllSpace(a) && AllSpace(b) && AllSpace(a') && AllSpace(b') && Trimmed(k) && Trimmed(k')
    requires a + k + b == a' + k' + b'
    ensures k == k'
  {
    var s := a + k + b;
    if k == [] || k' == [] {
      SpacesOnly(a, k, b);
      SpacesOnly(a', k', b');
    } else {
      SpacesOnly(a, k, b);
      SpacesOnly(a', k', b');
      assert s[|a|] == k[0] && s[|a'|] == k'[0];
      assert s[|a| + |k| - 1] == k[|k| - 1] && s[|a'| + |k'| - 1] == k'[|k'| - 1];
      assert |a| == |a'| && |k| == |k'|;
      assert k == s[|a|..|a| + |k|] && k' == s[|a'|..|a'| + |k'|];
    }
  }

  // All characters before and behind k are spaces, and only then.
  lemma SpacesOnly(a: string, k: string, b: string)
    requires AllSpace(a) && AllSpace(b) && Trimmed(k)
    ensures var s := a + k + b;
      && (forall i :: 0 <= i < |s| && (i < |a| || i >= |a| + |k|) ==> IsSpace(s[i]))
      && (k == [] <==> AllSpace(s))
  {
    var s := a + k + b;
    if k != [] {
      assert s[|a|] == k[0];
    }
  }

  lemma TrimPadded(a: string, k: string, b: string)
    requires AllSpace(a) && AllSpace(b) && Trimmed(k)
    ensures TrimSpace(a + k + b) == k
  {
    var a', b' := TrimSpaceIs(a + k + b);
    hide TrimSpace;
    TrimmedOnce(a, k, b, a', TrimSpace(a + k + b), b');
  }

  lemma PaddedIsLoose(a: string, k: string, b: string)
    requires AllSpace(a) && AllSpace(b) && Wordy(k)
    ensures Loose(a + k + b) && Trimmed(k)
  {
    var s := a + k + b;
    forall i | 0 <= i < |s|
      ensures Letter(s[i]) || IsSpace(s[i])
    {
      if |a| <= i < |a| + |k| {
        assert s[i] == k[i - |a|];
      }
    }
    forall i | 0 <= i < |s| - 1
      ensures !(s[i] == 'R' && s[i + 1] == 'R')
    {
      if |a| <= i && i + 1 < |a| + |k| {
        assert s[i] == k[i - |a|] && s[i + 1] == k[i - |a| + 1];
      }
    }
  }

  // A map type with spaces around its key and its value.
  function Spaced(open: char, a: string, k: string, b: string, c: string, v: string, d: string, close: char): string {
    Shape("MAP", open, a + k + b, c + v + d, close)
  }

  // The spaces make no difference to the parser.
  lemma PartsOfSpaced(a: string, k: string, b: string, c: string, v: string, d: string, open: char, close: char)
    requires AllSpace(a) && AllSpace(b) && AllSpace(c) && AllSpace(d) && Wordy(k) && Wordy(v)
    requires Bracket(open) && Bracket(close) && open != close
    ensures MapParts(Spaced(open, a, k, b, c, v, d, close), open, close) == Parts(k, v)
    ensures Contains(Spaced(open, a, k, b, c, v, d, close), "MAP")
  {
    PaddedIsLoose(a, k, b);
    PaddedIsLoose(c, v, d);
    TrimPadded(a, k, b);
    TrimPadded(c, v, d);
    hide TrimSpace, MapParts, Contains;
    PartsOfShape(a + k + b, c + v + d, open, close);
  }

  // Nor to the conversions, in either case of letters.
  lemma SpacedHive(name: string, t: string, a: string, k: string, b: string, c: string, v: string, d: string)
    requires AllSpace(a) && AllSpace(b) && AllSpace(c) && AllSpace(d) && Wordy(k) && Wordy(v)
    requires Upper(t) == Spaced('<', a, k, b, c, v, d, '>')
    requires SimpleHiveToPresto(k) != "" && SimpleHiveToPresto(v) != ""
    ensures HiveColumnToPrestoColumn(Column(name, t)) ==
      Ok(Column(name, "map(" + SimpleHiveToPresto(k) + "," + SimpleHiveToPresto(v) + ")"))
  {
    hide MapParts, Contains, Upper, SimpleHiveToPresto, SimplePrestoToHive, Spaced, Wordy, AllSpace;
    PartsOfSpaced(a, k, b, c, v, d, '<', '>');
    SpacedBracket('<', a, k, b, c, v, d, '>');
    UpperNotSimple(t, '<');
  }

  lemma SpacedPresto(name: string, t: string, a: string, k: string, b: string, c: string, v: string, d: string)
    requires AllSpace(a) && AllSpace(b) && AllSpace(c) && AllSpace(d) && Wordy(k) && Wordy(v)
    requires Upper(t) == Spaced('(', a, k, b, c, v, d, ')')
    requires SimplePrestoToHive(k) != "" && SimplePrestoToHive(v) != ""
    ensures PrestoColumnToHiveColumn(Column(name, t)) ==
      Ok(Column(name, "MAP<" + SimplePrestoToHive(k) + "," + SimplePrestoToHive(v) + ">"))
  {
    hide MapParts, Contains, Upper, SimpleHiveToPresto, SimplePrestoToHive, Spaced, Wordy, AllSpace;
    PartsOfSpaced(a, k, b, c, v, d, '(', ')');
    SpacedBracket('(', a, k, b, c, v, d, ')');
    UpperNotSimple(t, '(');
  }

  lemma SpacedBracket(open: char, a: string, k: string, b: string, c: string, v: string, d: string, close: char)
    ensures var u := Spaced(open, a, k, b, c, v, d, close); |u| > 3 && u[3] == open
  {
  }

  lemma UpperNotSimple(t: string, open: char)
    requires |Upper(t)| > 3 && Upper(t)[3] == open && Bracket(open)
    ensures SimpleHiveToPresto(t) == "" && SimplePrestoToHive(t) == ""
  {
    hide SimpleHiveToPresto, SimplePrestoToHive;
    assert Bracket(t[3]);
    ShapeIsNotSimple(t);
  }

  lemma UpperAppend(a: string, b: string)
    ensures Upper(a + b) == Upper(a) + Upper(b)
  {
  }

  // The type of the labels column, as the importer writes it: map<string, string>.
  lemma LabelsConvert(name: string)
    ensures HiveColumnToPrestoColumn(Column(name, "map<" + "string" + "," + " string" + ">")) ==
      Ok(Column(name, "map(" + "VARCHAR" + "," + "VARCHAR" + ")"))
  {
    CanonicalIsWordy("STRING");
    SimpleRoundTrip("STRING");
    LabelsUpper();
    assert AllSpace("") && AllSpace(" ");
    hide *;
    SpacedHive(name, "map<" + "string" + "," + " string" + ">", "", "STRING", "", " ", "STRING", "");
  }

  lemma LabelsUpper()
    ensures Upper("map<" + "string" + "," + " string" + ">") == Spaced('<', "", "STRING", "", " ", "STRING", "", '>')
  {
    UpperAppend("map<" + "string" + "," + " string", ">");
    UpperAppend("map<" + "string" + ",", " string");
    UpperAppend("map<" + "string", ",");
    UpperAppend("map<", "string");
    assert Upper("map<") == "MAP" + ['<'] && Upper("string") == "STRING" && Upper(",") == "," && Upper(">") == ['>'];
    assert Upper(" string") == " " + "STRING" + "";
    assert "STRING" == "" + "STRING" + "";
    hide Upper;
  }

  // The case of letters does not matter.
  lemma AnyCase(t: string)
    ensures SimplePrestoToHive(t) == SimplePrestoToHive(Upper(t))
    ensures SimpleHiveToPresto(t) ==
      if Upper(t) == "STRING" then "VARCHAR" else if SimpleHiveToPresto(Upper(t)) != "" then t else ""
  {
    assert Upper(Upper(t)) == Upper(t);
    assert t == "" ==> Upper(t) == "";
    assert "STRING" !in COMMON;
  }

  // What becomes of each simple type.
  lemma CommonTypes(t: string)
    requires t in ["TINYINT", "SMALLINT", "INT", "INTEGER", "BIGINT", "FLOAT", "DOUBLE", "BOOLEAN", "CHAR", "DATE",
                   "TIME", "TIMESTAMP", "BINARY"]
    ensures SimpleHiveToPresto(t) == t && SimplePrestoToHive(t) == t
  {
    CanonicalIsWordy(t);
    UpperOfWord(t);
  }

  lemma OtherTypes()
    ensures SimplePrestoToHive("REAL") == "FLOAT" && SimpleHiveToPresto("REAL") == ""
    ensures SimplePrestoToHive("VARCHAR") == "STRING" && SimpleHiveToPresto("VARCHAR") == "VARCHAR"
    ensures SimplePrestoToHive("STRING") == "" && SimpleHiveToPresto("STRING") == "VARCHAR"
  {
    WordyNumbers();
    WordyOthers();
    UpperOfWord("REAL");
    UpperOfWord("VARCHAR");
    UpperOfWord("STRING");
    hide Upper, Wordy;
  }
}
