// The converter reads back the lines that go test prints.
module LineSyntax {
  import opened Bytes
  import opened Sequences
  import opened Options
  import opened Converter

  // Four spaces, depth times.
  function Spaces(depth: nat): seq<byte> {
    if depth == 0 then [] else FOUR_SPACE + Spaces(depth - 1)
  }

  lemma FourSpaces()
    ensures FOUR_SPACE == [SPACE, SPACE, SPACE, SPACE]
  {
  }

  lemma StripsOne(rest: seq<byte>)
    ensures Dedented(FOUR_SPACE + rest) == Dedented(rest) && Indent(FOUR_SPACE + rest) == 1 + Indent(rest)
  {
    FourSpaces();
    assert (FOUR_SPACE + rest)[4..] == rest;
  }

  lemma StripsNone(body: seq<byte>)
    requires body != [] && body[0] != SPACE
    ensures Dedented(body) == body && Indent(body) == 0
  {
    FourSpaces();
  }

  lemma {:induction false} StripsSpaces(depth: nat, body: seq<byte>)
    requires body != [] && body[0] != SPACE
    ensures Dedented(Spaces(depth) + body) == body && Indent(Spaces(depth) + body) == depth
    decreases depth
  {
    hide Dedented, Indent;
    if depth == 0 {
      assert Spaces(0) + body == body;
      StripsNone(body);
    } else {
      StripsSpaces(depth - 1, body);
      StripsOne(Spaces(depth - 1) + body);
      Assoc(FOUR_SPACE, Spaces(depth - 1), body);
    }
  }

  // The first byte tells updates, results and final lines apart.
  lemma FirstBytes()
    ensures forall i :: 0 <= i < |UPDATES| ==> |UPDATES[i].0| == UPDATE_LEN && UPDATES[i].0[0] == 0x3D
    ensures forall i :: 0 <= i < |REPORTS| ==> |REPORTS[i].0| >= 10 && REPORTS[i].0[0] == DASH
    ensures BIG_PASS[0] == 0x50 && BIG_FAIL[0] == 0x46
  {
  }

  lemma {:induction false} NoMagic(magics: seq<(seq<byte>, Action)>, s: seq<byte>)
    requires s != [] && forall i :: 0 <= i < |magics| ==> magics[i].0 != [] && magics[i].0[0] != s[0]
    ensures FindMagic(magics, s) == None
    decreases |magics|
  {
    if magics != [] {
      assert !HasPrefix(s, magics[0].0);
      NoMagic(magics[1..], s);
    }
  }

  // The first m magic prefixes disagree with s somewhere, the next one fits.
  lemma {:induction false} FindsMagic(magics: seq<(seq<byte>, Action)>, s: seq<byte>, m: nat)
    requires m < |magics| && HasPrefix(s, magics[m].0)
    requires forall i :: 0 <= i < m ==> !HasPrefix(s, magics[i].0)
    ensures FindMagic(magics, s) == Some(magics[m].1)
    decreases |magics|
  {
    if m > 0 {
      assert forall i :: 0 <= i < m - 1 ==> magics[1..][i] == magics[i + 1];
      FindsMagic(magics[1..], s, m - 1);
    }
  }

  // The letter behind the dashes tells the results apart, and so for the updates.
  lemma MagicLetters()
    ensures REPORTS[0].0[4] == 0x50 && REPORTS[1].0[4] == 0x46 && REPORTS[2].0[4] == 0x53 && REPORTS[3].0[4] == 0x42
    ensures UPDATES[0].0[4] == 0x52 && UPDATES[1].0[4] == 0x50 && UPDATES[2].0[4] == 0x43
  {
  }

  lemma WrongLetter(magic: seq<byte>, s: seq<byte>)
    requires |magic| > 4 && |s| > 4 && magic[4] != s[4]
    ensures !HasPrefix(s, magic)
  {
  }

  // The colon is the last but one byte of a result prefix.
  lemma ColonPlaces()
    ensures forall m :: 0 <= m < |REPORTS| ==> IsFirst(REPORTS[m].0, COLON, |REPORTS[m].0| - 2)
    ensures forall m :: 0 <= m < |REPORTS| ==> REPORTS[m].0[|REPORTS[m].0| - 1] == SPACE
  {
    assert |REPORTS| == 4;
    assert IsFirst(REPORTS[0].0, COLON, 8);
    assert IsFirst(REPORTS[1].0, COLON, 8);
    assert IsFirst(REPORTS[2].0, COLON, 8);
    assert IsFirst(REPORTS[3].0, COLON, 9);
  }

  lemma ReportMagic(m: nat, text: seq<byte>)
    requires m < |REPORTS|
    ensures FindMagic(REPORTS, REPORTS[m].0 + text) == Some(REPORTS[m].1)
  {
    FirstBytes();
    MagicLetters();
    var s := REPORTS[m].0 + text;
    forall i | 0 <= i < m
      ensures !HasPrefix(s, REPORTS[i].0)
    {
      WrongLetter(REPORTS[i].0, s);
    }
    FindsMagic(REPORTS, s, m);
  }

  // An indented result line is read as that result, at that depth, with the
  // trimmed text behind the colon up to the elapsed time as its name.
  lemma ReadsReport(env: Env, depth: nat, m: nat, text: seq<byte>)
    requires m < |REPORTS|
    ensures Classify(env, Spaces(depth) + (REPORTS[m].0 + text)) ==
      Report(REPORTS[m].1, CutElapsed(env.trimSpace([SPACE] + text)), depth)
  {
    hide FindMagic, CutElapsed, Indent, Dedented;
    var body := REPORTS[m].0 + text;
    var line := Spaces(depth) + body;
    FirstBytes();
    StripsSpaces(depth, body);
    FourSpaces();
    assert line[0] == SPACE || line[0] == DASH;
    NoMagic(UPDATES, line);
    ReportMagic(m, text);
    ColonPlaces();
    var n := |REPORTS[m].0|;
    IndexIs(body, COLON, n - 2);
    assert body[n - 1..] == [SPACE] + text;
  }

  // An update line is read as that update, with the trimmed text as its name.
  lemma ReadsUpdate(env: Env, m: nat, text: seq<byte>)
    requires m < |UPDATES|
    ensures Classify(env, UPDATES[m].0 + text) == Update(UPDATES[m].1, env.trimSpace(text))
  {
    hide CutElapsed, Indent, Dedented;
    FirstBytes();
    MagicLetters();
    var line := UPDATES[m].0 + text;
    forall i | 0 <= i < m
      ensures !HasPrefix(line, UPDATES[i].0)
    {
      WrongLetter(UPDATES[i].0, line);
    }
    FindsMagic(UPDATES, line, m);
    hide FindMagic;
    assert line[UPDATE_LEN..] == text;
  }

  // The elapsed time, from the first space and parenthesis on, is cut off.
  lemma {:induction false} CutsElapsed(name: seq<byte>, rest: seq<byte>)
    requires forall i :: 0 <= i < |name| ==> !HasPrefix(name[i..] + OPEN_PAREN + rest, OPEN_PAREN)
    ensures CutElapsed(name + OPEN_PAREN + rest) == name
    decreases |name|
  {
    var s := name + OPEN_PAREN + rest;
    if name == [] {
      assert HasPrefix(s, OPEN_PAREN);
    } else {
      assert name[0..] == name;
      assert s[1..] == name[1..] + OPEN_PAREN + rest;
      forall i | 0 <= i < |name[1..]|
        ensures !HasPrefix(name[1..][i..] + OPEN_PAREN + rest, OPEN_PAREN)
      {
        assert name[1..][i..] == name[i + 1..];
      }
      CutsElapsed(name[1..], rest);
    }
  }
}
