/**
 The text of `radosgw.conf`: rendering it, reading the frontend line back, and
 the line edits that the frontend publication and the periodic refresh make to
 the same file.
 */
module RgwConf {
  import opened Common

  // ----- text helpers, with the meaning of the string routines the source calls -----

  predicate IsSpace(c: char)
  {
    || c == ' ' || '\t' <= c <= '\r' || c == '\U{85}' || c == '\U{A0}' || c == '\U{1680}'
    || '\U{2000}' <= c <= '\U{200A}' || c == '\U{2028}' || c == '\U{2029}' || c == '\U{202F}'
    || c == '\U{205F}' || c == '\U{3000}'
  }

  function TrimLeft(s: string): string
  {
    if s != [] && IsSpace(s[0]) then TrimLeft(s[1..]) else s
  }

  function TrimRight(s: string): string
  {
    if s != [] && IsSpace(s[|s| - 1]) then TrimRight(s[..|s| - 1]) else s
  }

  function Trim(s: string): string
  {
    TrimRight(TrimLeft(s))
  }

  predicate Solid(s: string)
  {
    s != [] && forall i :: 0 <= i < |s| ==> !IsSpace(s[i])
  }

  lemma TrimFixed(s: string)
    requires s == [] || (!IsSpace(s[0]) && !IsSpace(s[|s| - 1]))
    ensures Trim(s) == s
  {
  }

  function Split(text: string): (lines: seq<string>)
    ensures |lines| > 0
  {
    if text == [] then [[]]
    else
      var rest := Split(text[1..]);
      if text[0] == '\n' then [[]] + rest else [[text[0]] + rest[0]] + rest[1..]
  }

  function Join(lines: seq<string>): string
    requires |lines| > 0
  {
    if |lines| == 1 then lines[0] else lines[0] + "\n" + Join(lines[1..])
  }

  predicate OneLine(s: string)
  {
    forall i :: 0 <= i < |s| ==> s[i] != '\n'
  }

  predicate OneLineEach(lines: seq<string>)
  {
    forall i :: 0 <= i < |lines| ==> OneLine(lines[i])
  }

  lemma {:induction false} SplitOneLine(s: string)
    requires OneLine(s)
    ensures Split(s) == [s]
  {
    if s != [] {
      SplitOneLine(s[1..]);
      assert [s[0]] + s[1..] == s;
    }
  }

  lemma {:induction false} SplitCons(line: string, text: string)
    requires OneLine(line)
    ensures Split(line + "\n" + text) == [line] + Split(text)
  {
    var all := line + "\n" + text;
    if line == [] {
      assert all[1..] == text;
    } else {
      assert all[1..] == line[1..] + "\n" + text;
      SplitCons(line[1..], text);
      assert [line[0]] + line[1..] == line;
    }
  }

  /** Joining lines and splitting the text gives the lines back, so line edits compose across rewrites. */
  lemma {:induction false} SplitJoin(lines: seq<string>)
    requires |lines| > 0 && OneLineEach(lines)
    ensures Split(Join(lines)) == lines
  {
    if |lines| == 1 {
      SplitOneLine(lines[0]);
    } else {
      SplitJoin(lines[1..]);
      SplitCons(lines[0], Join(lines[1..]));
      assert lines == [lines[0]] + lines[1..];
    }
  }

  lemma {:induction false} JoinSplit(text: string)
    ensures Join(Split(text)) == text && OneLineEach(Split(text))
  {
    if text != [] {
      JoinSplit(text[1..]);
      var rest := Split(text[1..]);
      if text[0] == '\n' {
        assert ([[]] + rest)[1..] == rest;
        assert text == "\n" + text[1..];
      } else {
        var lines := [[text[0]] + rest[0]] + rest[1..];
        assert lines[1..] == rest[1..];
        assert Join(lines) == [text[0]] + Join(rest);
      }
    }
  }

  // ----- line edits -----

  const FRONTEND := "rgw frontends = "
  const MON_HOST := "mon host = "
  const RUN_DIR := "run dir = "

  /** Replace every line that, trimmed, starts with `prefix`. */
  datatype Edit = Edit(prefix: string, line: string)

  predicate Matches(e: Edit, line: string)
  {
    e.prefix <= Trim(line)
  }

  function EditLine(e: Edit, line: string): string
  {
    if Matches(e, line) then e.line else line
  }

  function EditLines(e: Edit, lines: seq<string>): (out: seq<string>)
    ensures |out| == |lines|
    ensures forall i :: 0 <= i < |lines| ==> out[i] == EditLine(e, lines[i])
  {
    seq(|lines|, i requires 0 <= i < |lines| => EditLine(e, lines[i]))
  }

  /** The loop shared by every rewriter of the file. */
  method RewriteLines(original: seq<string>, e: Edit) returns (lines: seq<string>, changed: bool)
    ensures lines == EditLines(e, original)
    ensures changed <==> lines != original
  {
    lines, changed := original, false;
    ghost var at := 0;
    for i := 0 to |lines|
      invariant |lines| == |original|
      invariant forall j :: 0 <= j < i ==> lines[j] == EditLine(e, original[j])
      invariant forall j :: i <= j < |lines| ==> lines[j] == original[j]
      invariant if changed then at < i && lines[at] != original[at] else lines == original
    {
      if Matches(e, lines[i]) && lines[i] != e.line {
        lines := lines[i := e.line];
        changed, at := true, i;
      }
    }
  }

  /** Rewrites the file; `changed` says whether a rewrite is needed at all. */
  method FixConfigLine(text: string, e: Edit) returns (out: string, changed: bool)
    ensures out == Join(EditLines(e, Split(text)))
    ensures changed <==> EditLines(e, Split(text)) != Split(text)
    ensures !changed ==> out == text
  {
    JoinSplit(text);
    var lines;
    lines, changed := RewriteLines(Split(text), e);
    out := if changed then Join(lines) else text;
  }

  // ----- the frontend line -----

  predicate IsFrontend(line: string)
  {
    FRONTEND <= Trim(line)
  }

  function FrontendLine(lines: seq<string>): string
  {
    if lines == [] then ""
    else if IsFrontend(lines[0]) then Trim(lines[0])
    else FrontendLine(lines[1..])
  }

  method ReadFrontendLine(text: string) returns (line: string)
    ensures line == FrontendLine(Split(text))
  {
    var lines := Split(text);
    for i := 0 to |lines|
      invariant FrontendLine(lines) == FrontendLine(lines[i..])
    {
      if IsFrontend(lines[i]) {
        return Trim(lines[i]);
      }
    }
    line := "";
  }

  predicate HasFrontend(lines: seq<string>)
  {
    exists i :: 0 <= i < |lines| && IsFrontend(lines[i])
  }

  /** A line that survives the file unchanged when read back, or no line at all. */
  predicate Settled(front: string)
  {
    front == "" || (Trim(front) == front && FRONTEND <= front)
  }

  lemma {:induction false} TrimLeftTwice(s: string)
    ensures TrimLeft(TrimLeft(s)) == TrimLeft(s)
  {
    if s != [] && IsSpace(s[0]) {
      TrimLeftTwice(s[1..]);
    }
  }

  lemma {:induction false} TrimRightTwice(s: string)
    ensures TrimRight(TrimRight(s)) == TrimRight(s)
    ensures s != [] && !IsSpace(s[0]) ==> TrimRight(s) != [] && TrimRight(s)[0] == s[0]
  {
    if s != [] && IsSpace(s[|s| - 1]) {
      TrimRightTwice(s[..|s| - 1]);
    }
  }

  lemma {:induction false} TrimLeftStart(s: string)
    ensures TrimLeft(s) == [] || !IsSpace(TrimLeft(s)[0])
  {
    if s != [] && IsSpace(s[0]) {
      TrimLeftStart(s[1..]);
    }
  }

  lemma TrimTwice(s: string)
    ensures Trim(Trim(s)) == Trim(s)
  {
    TrimLeftStart(s);
    TrimRightTwice(TrimLeft(s));
  }

  lemma {:induction false} FrontendLineSettled(lines: seq<string>)
    ensures Settled(FrontendLine(lines))
    ensures FrontendLine(lines) != "" <==> HasFrontend(lines)
  {
    if lines != [] {
      if IsFrontend(lines[0]) {
        TrimTwice(lines[0]);
        assert FRONTEND != "";
      } else {
        FrontendLineSettled(lines[1..]);
        if HasFrontend(lines[1..]) {
          var i :| 0 <= i < |lines[1..]| && IsFrontend(lines[1..][i]);
          assert IsFrontend(lines[i + 1]);
        }
        if HasFrontend(lines) {
          var i :| 0 <= i < |lines| && IsFrontend(lines[i]);
          assert IsFrontend(lines[1..][i - 1]);
        }
      }
    }
  }

  function FrontEdit(front: string): Edit { Edit(FRONTEND, front) }
  function MonEdit(monitors: string): Edit { Edit(MON_HOST, MON_HOST + monitors) }
  function RunEdit(runDir: string): Edit { Edit(RUN_DIR, RUN_DIR + runDir) }

  /** Writing a frontend line and reading the file back gives that line. */
  lemma {:induction false} FrontendAfterEdit(lines: seq<string>, front: string)
    requires HasFrontend(lines) && Settled(front)
    ensures FrontendLine(EditLines(FrontEdit(front), lines)) == front
  {
    if front == "" {
      NoFrontendLeft(lines);
    } else {
      EditTail(FrontEdit(front), lines);
      if !IsFrontend(lines[0]) {
        var i :| 0 <= i < |lines| && IsFrontend(lines[i]);
        assert IsFrontend(lines[1..][i - 1]);
        FrontendAfterEdit(lines[1..], front);
      }
    }
  }

  lemma EditTail(e: Edit, lines: seq<string>)
    requires lines != []
    ensures EditLines(e, lines) == [EditLine(e, lines[0])] + EditLines(e, lines[1..])
    ensures EditLines(e, lines)[1..] == EditLines(e, lines[1..])
  {
  }

  lemma NoFrontendLeft(lines: seq<string>)
    ensures FrontendLine(EditLines(FrontEdit(""), lines)) == ""
  {
    var out := EditLines(FrontEdit(""), lines);
    FrontendLineSettled(out);
    forall i | 0 <= i < |out|
      ensures !IsFrontend(out[i])
    {
      assert out[i] == EditLine(FrontEdit(""), lines[i]);
      assert Trim("") == "";
    }
  }

  // ----- edits by different writers -----

  /** Two edits that neither own each other's line nor can claim the same one. */
  predicate Apart(a: Edit, b: Edit)
  {
    && !Matches(a, b.line) && !Matches(b, a.line)
    && !(a.prefix <= b.prefix) && !(b.prefix <= a.prefix)
  }

  lemma EditsCommute(a: Edit, b: Edit, lines: seq<string>)
    requires Apart(a, b)
    ensures EditLines(a, EditLines(b, lines)) == EditLines(b, EditLines(a, lines))
  {
    var ab, ba := EditLines(a, EditLines(b, lines)), EditLines(b, EditLines(a, lines));
    forall i | 0 <= i < |lines|
      ensures ab[i] == ba[i]
    {
      PrefixesOfOne(a.prefix, b.prefix, Trim(lines[i]));
    }
  }

  lemma PrefixesOfOne(a: string, b: string, s: string)
    ensures a <= s && b <= s ==> a <= b || b <= a
  {
    if a <= s && b <= s {
      assert a == s[..|a|] && b == s[..|b|];
      if |a| <= |b| {
        assert b[..|a|] == a;
      } else {
        assert a[..|b|] == b;
      }
    }
  }

  lemma EditTwice(a: Edit, b: Edit, lines: seq<string>)
    requires a.prefix == b.prefix && (Matches(a, b.line) || b.line == a.line)
    ensures EditLines(a, EditLines(b, lines)) == EditLines(a, lines)
  {
    var ab, once := EditLines(a, EditLines(b, lines)), EditLines(a, lines);
    forall i | 0 <= i < |lines|
      ensures ab[i] == once[i]
    {
    }
  }

  lemma {:induction false} TrimKeepsStart(s: string, n: nat)
    requires 0 < n <= |s| && !IsSpace(s[0]) && !IsSpace(s[n - 1])
    ensures s[..n] <= Trim(s)
    decreases |s|
  {
    assert TrimLeft(s) == s;
    if IsSpace(s[|s| - 1]) {
      var t := s[..|s| - 1];
      assert n < |s| && t[..n] == s[..n];
      TrimKeepsStart(t, n);
      assert TrimLeft(t) == t;
    }
  }

  /** The refresh edits: what `updateRadosGWMonHost` and `fixRadosGWRunDir` write. */
  predicate IsRefresh(e: Edit)
  {
    || (e.prefix == MON_HOST && MON_HOST <= e.line)
    || (e.prefix == RUN_DIR && RUN_DIR <= e.line)
  }

  lemma RefreshApartFromFront(e: Edit, front: string)
    requires IsRefresh(e) && Settled(front)
    ensures Apart(FrontEdit(front), e)
  {
    var line := e.line;
    TrimKeepsStart(line, 3);
    assert line[..3] == "mon" || line[..3] == "run";
    assert Trim(line)[..3] == line[..3];
    assert FRONTEND[..3] == "rgw";
    assert Trim(line)[0] == line[..3][0] && Trim(line)[1] == line[..3][1];
    assert Trim(line)[0] != FRONTEND[0] || Trim(line)[1] != FRONTEND[1];
    if front == "" {
      assert Trim("") == "";
    } else {
      assert Trim(front)[..3] == FRONTEND[..3];
    }
    assert e.prefix[..3] == "mon" || e.prefix[..3] == "run";
  }

  lemma MonApartFromRun(monitors: string, runDir: string)
    ensures Apart(MonEdit(monitors), RunEdit(runDir))
  {
    TrimKeepsStart(MON_HOST + monitors, 3);
    TrimKeepsStart(RUN_DIR + runDir, 3);
    assert (MON_HOST + monitors)[..3] == "mon" && (RUN_DIR + runDir)[..3] == "run";
    assert Trim(MON_HOST + monitors)[..3] == "mon" && Trim(RUN_DIR + runDir)[..3] == "run";
    assert MON_HOST[..3] == "mon" && RUN_DIR[..3] == "run";
  }

  /** The two refreshes can run in either order. */
  lemma MonCommutesWithRun(monitors: string, runDir: string, lines: seq<string>)
    ensures EditLines(MonEdit(monitors), EditLines(RunEdit(runDir), lines))
         == EditLines(RunEdit(runDir), EditLines(MonEdit(monitors), lines))
  {
    MonApartFromRun(monitors, runDir);
    EditsCommute(MonEdit(monitors), RunEdit(runDir), lines);
  }

  function Refreshed(edits: seq<Edit>, lines: seq<string>): seq<string>
  {
    if edits == [] then lines else Refreshed(edits[1..], EditLines(edits[0], lines))
  }

  lemma {:induction false} FrontCommutesWithRefresh(edits: seq<Edit>, front: string, lines: seq<string>)
    requires Settled(front) && forall i :: 0 <= i < |edits| ==> IsRefresh(edits[i])
    ensures EditLines(FrontEdit(front), Refreshed(edits, lines)) == Refreshed(edits, EditLines(FrontEdit(front), lines))
    decreases |edits|
  {
    if edits != [] {
      FrontCommutesWithRefresh(edits[1..], front, EditLines(edits[0], lines));
      RefreshApartFromFront(edits[0], front);
      EditsCommute(FrontEdit(front), edits[0], lines);
    }
  }

  /** The file holds its frontend line already trimmed, and the same line wherever it repeats it. */
  predicate Canonical(lines: seq<string>)
  {
    forall i :: 0 <= i < |lines| && IsFrontend(lines[i]) ==> lines[i] == FrontendLine(lines)
  }

  /** One indented frontend line is not canonical. */
  lemma IndentedFrontendIsNotCanonical(front: string)
    requires Settled(front) && front != ""
    ensures HasFrontend([" " + front]) && !Canonical([" " + front])
  {
    var line := " " + front;
    assert line[1..] == front;
    assert TrimLeft(line) == TrimLeft(front);
    assert Trim(line) == front && IsFrontend([line][0]);
    assert FrontendLine([line]) == front && |line| == |front| + 1;
  }

  lemma {:induction false} RefreshKeepsFrontends(edits: seq<Edit>, lines: seq<string>, i: nat)
    requires forall k :: 0 <= k < |edits| ==> IsRefresh(edits[k])
    requires i < |lines| && IsFrontend(lines[i])
    ensures |Refreshed(edits, lines)| == |lines| && Refreshed(edits, lines)[i] == lines[i]
    decreases |edits|
  {
    if edits != [] {
      RefreshApartFromFront(edits[0], "");
      PrefixesOfOne(edits[0].prefix, FRONTEND, Trim(lines[i]));
      RefreshKeepsFrontends(edits[1..], EditLines(edits[0], lines), i);
    }
  }

  lemma CanonicalEdit(lines: seq<string>)
    requires Canonical(lines)
    ensures EditLines(FrontEdit(FrontendLine(lines)), lines) == lines
  {
    forall i | 0 <= i < |lines|
      ensures EditLine(FrontEdit(FrontendLine(lines)), lines[i]) == lines[i]
    {
      assert IsFrontend(lines[i]) <==> Matches(FrontEdit(FrontendLine(lines)), lines[i]);
    }
  }

  // ----- tokens -----

  /** Splits around runs of white space. */
  function Fields(s: string): seq<string>
    decreases |s|
  {
    var t := TrimLeft(s);
    TrimLeftShorter(s);
    if t == [] then []
    else
      var n := WordLength(t);
      TrimLeftStart(s);
      [t[..n]] + Fields(t[n..])
  }

  function WordLength(s: string): (n: nat)
    ensures n <= |s|
    ensures s != [] && !IsSpace(s[0]) ==> n > 0
  {
    if s == [] || IsSpace(s[0]) then 0 else 1 + WordLength(s[1..])
  }

  lemma {:induction false} TrimLeftShorter(s: string)
    ensures |TrimLeft(s)| <= |s|
  {
    if s != [] && IsSpace(s[0]) {
      TrimLeftShorter(s[1..]);
    }
  }

  function Words(tokens: seq<string>): string
    requires |tokens| > 0
  {
    if |tokens| == 1 then tokens[0] else tokens[0] + " " + Words(tokens[1..])
  }

  predicate SolidEach(tokens: seq<string>)
  {
    forall i :: 0 <= i < |tokens| ==> Solid(tokens[i])
  }

  lemma {:induction false} WordLengthSolid(word: string, rest: string)
    requires Solid(word) && (rest == [] || IsSpace(rest[0]))
    ensures WordLength(word + rest) == |word|
  {
    if |word| == 1 {
      assert (word + rest)[1..] == rest;
    } else {
      assert (word + rest)[1..] == word[1..] + rest;
      WordLengthSolid(word[1..], rest);
    }
  }

  lemma {:induction false} FieldsOfWords(tokens: seq<string>)
    requires |tokens| > 0 && SolidEach(tokens)
    ensures Fields(Words(tokens)) == tokens
  {
    var word := tokens[0];
    assert Solid(word);
    if |tokens| == 1 {
      WordLengthSolid(word, []);
      assert word + [] == word;
      assert word[..|word|] == word && word[|word|..] == [];
      assert TrimLeft(word) == word;
      assert Fields([]) == [];
    } else {
      var rest := " " + Words(tokens[1..]);
      var all := word + rest;
      assert all == Words(tokens);
      WordLengthSolid(word, rest);
      assert TrimLeft(all) == all && all[..|word|] == word && all[|word|..] == rest;
      assert rest[1..] == Words(tokens[1..]);
      assert TrimLeft(rest) == TrimLeft(rest[1..]);
      assert Fields(rest) == Fields(rest[1..]);
      FieldsOfWords(tokens[1..]);
      assert tokens == [word] + tokens[1..];
    }
  }

  lemma {:induction false} WordsEnds(tokens: seq<string>)
    requires |tokens| > 0 && SolidEach(tokens)
    ensures var w := Words(tokens); w != [] && !IsSpace(w[0]) && !IsSpace(w[|w| - 1])
  {
    assert Solid(tokens[0]);
    if |tokens| > 1 {
      WordsEnds(tokens[1..]);
    }
  }

  // ----- numbers -----

  function Itoa(n: nat): string
  {
    if n < 10 then [Digit(n)] else Itoa(n / 10) + [Digit(n % 10)]
  }

  function Digit(d: nat): char
    requires d < 10
  {
    '0' + d as char
  }

  function Digits(s: string): Option<nat>
  {
    if s == [] then Some(0)
    else
      var c, high := s[|s| - 1], Digits(s[..|s| - 1]);
      if high.None? || !('0' <= c <= '9') then None else Some(10 * high.value + (c - '0') as nat)
  }

  /** Decimal with an optional sign, in the range of a 64-bit integer. */
  function Atoi(s: string): Option<int>
  {
    var signed := s != [] && (s[0] == '-' || s[0] == '+');
    var body := if signed then s[1..] else s;
    var n := Digits(body);
    if body == [] || n.None? then None
    else
      var m: int := n.value;
      var v := if signed && s[0] == '-' then -m else m;
      if -0x8000_0000_0000_0000 <= v < 0x8000_0000_0000_0000 then Some(v) else None
  }

  lemma {:induction false} ItoaRoundTrip(n: nat)
    ensures Digits(Itoa(n)) == Some(n) && Solid(Itoa(n)) && '0' <= Itoa(n)[0] <= '9'
  {
    if n < 10 {
      assert Itoa(n)[..0] == [];
    } else {
      ItoaRoundTrip(n / 10);
      var s := Itoa(n);
      assert s[..|s| - 1] == Itoa(n / 10);
      assert s[0] == Itoa(n / 10)[0];
      assert forall i :: 0 <= i < |s| - 1 ==> s[i] == Itoa(n / 10)[i];
    }
  }

  // ----- reading a frontend line -----

  predicate HasKey(token: string, key: string)
  {
    key <= token
  }

  function LastValue(tokens: seq<string>, key: string): string
  {
    if tokens == [] then ""
    else
      var last := tokens[|tokens| - 1];
      if HasKey(last, key) then last[|key|..] else LastValue(tokens[..|tokens| - 1], key)
  }

  const CERT := "ssl_certificate="
  const KEY := "ssl_private_key="
  const PORT := "port="
  const SSL_PORT := "ssl_port="

  method ConfTlsPaths(front: string) returns (cert: string, key: string)
    ensures cert == LastValue(Fields(front), CERT) && key == LastValue(Fields(front), KEY)
  {
    var tokens := Fields(front);
    cert, key := "", "";
    for i := 0 to |tokens|
      invariant cert == LastValue(tokens[..i], CERT) && key == LastValue(tokens[..i], KEY)
    {
      assert tokens[..i + 1][..i] == tokens[..i];
      if HasKey(tokens[i], CERT) { cert := tokens[i][|CERT|..]; }
      if HasKey(tokens[i], KEY) { key := tokens[i][|KEY|..]; }
    }
    assert tokens[..|tokens|] == tokens;
  }

  /** None is the source's invalid-port error. */
  function Ports(tokens: seq<string>): Option<(int, int)>
  {
    if tokens == [] then Some((0, 0))
    else
      var last, before := tokens[|tokens| - 1], Ports(tokens[..|tokens| - 1]);
      if before.None? then None
      else if HasKey(last, PORT) then
        var n := Atoi(last[|PORT|..]);
        if n.None? then None else Some((n.value, before.value.1))
      else if HasKey(last, SSL_PORT) then
        var n := Atoi(last[|SSL_PORT|..]);
        if n.None? then None else Some((before.value.0, n.value))
      else before
  }

  lemma {:induction false} PortsError(tokens: seq<string>, i: nat)
    requires i <= |tokens| && Ports(tokens[..i]).None?
    ensures Ports(tokens).None?
    decreases |tokens| - i
  {
    if i < |tokens| {
      assert tokens[..i + 1][..i] == tokens[..i];
      PortsError(tokens, i + 1);
    } else {
      assert tokens[..i] == tokens;
    }
  }

  method ConfPorts(front: string) returns (ports: Option<(int, int)>)
    ensures ports == Ports(Fields(front))
  {
    var tokens := Fields(front);
    var port, sslPort := 0, 0;
    for i := 0 to |tokens|
      invariant Ports(tokens[..i]) == Some((port, sslPort))
    {
      assert tokens[..i + 1][..i] == tokens[..i];
      var plain, ssl := HasKey(tokens[i], PORT), HasKey(tokens[i], SSL_PORT);
      if plain || ssl {
        var number := Atoi(if plain then tokens[i][|PORT|..] else tokens[i][|SSL_PORT|..]);
        if number.None? {
          PortsError(tokens, i + 1);
          return None;
        }
        if plain { port := number.value; } else { sslPort := number.value; }
      }
    }
    assert tokens[..|tokens|] == tokens;
    return Some((port, sslPort));
  }

  // ----- rendering -----

  datatype Listeners = Listeners(port: nat, sslPort: nat, cert: string, key: string)

  predicate HasTls(l: Listeners)
  {
    l.cert != "" && l.key != ""
  }

  /** Settings an apply may render: ports in range and distinct, TLS paths exactly with a TLS port. */
  predicate ValidListeners(l: Listeners)
  {
    && l.port <= 65535 && l.sslPort <= 65535 && l.port != l.sslPort
    && (if l.sslPort != 0 then Solid(l.cert) && Solid(l.key) else l.cert == "" && l.key == "")
  }

  /** The frontend line of the template. */
  function RenderFrontend(l: Listeners): string
  {
    "rgw frontends = beast"
    + (if l.port != 0 || !HasTls(l) then " " + (PORT + Itoa(l.port)) else "")
    + (if HasTls(l) then " " + (SSL_PORT + Itoa(l.sslPort)) + " " + (CERT + l.cert) + " " + (KEY + l.key) else "")
  }

  const HEADER := "# Generated by MicroCeph, DO NOT EDIT."
  const GLOBAL := "[global]"
  // in two pieces, because the verifier does not look into the characters of a literal this long
  const AUTH := "auth" + " allow insecure global id reclaim = false"
  const SECTION := "[client.radosgw.gateway]"
  const INIT := "rgw init timeout = 1200"

  function Preamble(monitors: string, runDir: string): seq<string>
  {
    [HEADER, GLOBAL] + [MON_HOST + monitors, RUN_DIR + runDir] + [AUTH, ""] + [SECTION, INIT]
  }

  function Render(monitors: string, runDir: string, l: Listeners): seq<string>
  {
    Preamble(monitors, runDir) + [RenderFrontend(l), ""]
  }

  function PlainTokens(l: Listeners): seq<string>
  {
    ["rgw", "frontends", "=", "beast"] + (if l.port != 0 || !HasTls(l) then [PORT + Itoa(l.port)] else [])
  }

  function Tokens(l: Listeners): seq<string>
  {
    PlainTokens(l) + (if HasTls(l) then [SSL_PORT + Itoa(l.sslPort), CERT + l.cert, KEY + l.key] else [])
  }

  lemma {:induction false} WordsConcat(a: seq<string>, b: seq<string>)
    requires |a| > 0 && |b| > 0
    ensures Words(a + b) == Words(a) + " " + Words(b)
  {
    if |a| > 1 {
      assert (a + b)[1..] == a[1..] + b;
      WordsConcat(a[1..], b);
    } else {
      assert (a + b)[1..] == b;
    }
  }

  lemma SolidAfterKey(key: string, value: string)
    requires Solid(key) && Solid(value)
    ensures Solid(key + value)
  {
  }

  lemma HeadWords()
    ensures Words(["rgw", "frontends", "=", "beast"]) == "rgw frontends = beast"
    ensures SolidEach(["rgw", "frontends", "=", "beast"])
  {
    var four := ["rgw", "frontends", "=", "beast"];
    assert four[1..] == ["frontends", "=", "beast"];
    assert four[1..][1..] == ["=", "beast"] && four[1..][1..][1..] == ["beast"];
    assert Words(["=", "beast"]) == "=" + " " + Words(["beast"]);
    assert Words(["frontends", "=", "beast"]) == "frontends" + " " + Words(["=", "beast"]);
  }

  lemma PlainIsWords(l: Listeners)
    ensures Words(PlainTokens(l))
         == "rgw frontends = beast" + (if l.port != 0 || !HasTls(l) then " " + (PORT + Itoa(l.port)) else "")
    ensures SolidEach(PlainTokens(l))
  {
    HeadWords();
    ItoaRoundTrip(l.port);
    SolidAfterKey(PORT, Itoa(l.port));
    var head := ["rgw", "frontends", "=", "beast"];
    if l.port != 0 || !HasTls(l) {
      WordsConcat(head, [PORT + Itoa(l.port)]);
    } else {
      assert PlainTokens(l) == head;
    }
  }

  lemma WordsOfThree(a: string, b: string, c: string)
    ensures Words([a, b, c]) == a + " " + (b + " " + c)
  {
    assert [a, b, c][1..] == [b, c] && [b, c][1..] == [c];
    assert Words([b, c]) == b + " " + c;
  }

  lemma Regroup(head: string, a: string, b: string, c: string)
    ensures head + (" " + a + " " + b + " " + c) == head + " " + (a + " " + (b + " " + c))
  {
  }

  lemma TlsKeysSolid()
    ensures Solid(SSL_PORT) && Solid(CERT) && Solid(KEY)
  {
  }

  lemma RenderIsWords(l: Listeners)
    requires ValidListeners(l)
    ensures RenderFrontend(l) == Words(Tokens(l)) && SolidEach(Tokens(l))
  {
    PlainIsWords(l);
    if HasTls(l) {
      ItoaRoundTrip(l.sslPort);
      TlsKeysSolid();
      SolidAfterKey(SSL_PORT, Itoa(l.sslPort));
      SolidAfterKey(CERT, l.cert);
      SolidAfterKey(KEY, l.key);
      var a, b, c := SSL_PORT + Itoa(l.sslPort), CERT + l.cert, KEY + l.key;
      WordsConcat(PlainTokens(l), [a, b, c]);
      WordsOfThree(a, b, c);
      Regroup(Words(PlainTokens(l)), a, b, c);
    } else {
      assert Tokens(l) == PlainTokens(l);
    }
  }

  lemma PortsAppend(ts: seq<string>, t: string)
    ensures Ports(ts + [t]) ==
              if Ports(ts).None? then None
              else if HasKey(t, PORT) then
                (if Atoi(t[|PORT|..]).None? then None else Some((Atoi(t[|PORT|..]).value, Ports(ts).value.1)))
              else if HasKey(t, SSL_PORT) then
                (if Atoi(t[|SSL_PORT|..]).None? then None else Some((Ports(ts).value.0, Atoi(t[|SSL_PORT|..]).value)))
              else Ports(ts)
  {
    assert (ts + [t])[..|ts|] == ts;
  }

  lemma LastValueAppend(ts: seq<string>, t: string, key: string)
    ensures LastValue(ts + [t], key) == if HasKey(t, key) then t[|key|..] else LastValue(ts, key)
  {
    assert (ts + [t])[..|ts|] == ts;
  }

  /** What `rgwFrontendFromConfig` reads out of a line before it opens any file: None is a refusal. */
  function ParseFrontend(front: string): Option<Listeners>
  {
    var ports := Ports(Fields(front));
    var cert, key := LastValue(Fields(front), CERT), LastValue(Fields(front), KEY);
    if !("rgw frontends = beast " <= front) || ports.None? then None
    else
      var (p, s) := ports.value;
      if p < 0 || p > 65535 || s < 0 || s > 65535 || p == s then None
      else if s == 0 && (cert != "" || key != "") then None
      else if s != 0 && (cert == "" || key == "") then None
      else Some(Listeners(p, s, cert, key))
  }

  /** Nothing else is accepted: a line that parses is a beast frontend with two distinct ports in range, of which the
      TLS one is set exactly when both paths are. */
  lemma ParsedIsValid(front: string)
    requires ParseFrontend(front).Some?
    ensures "rgw frontends = beast " <= front
    ensures var l := ParseFrontend(front).value;
            && l.port <= 65535 && l.sslPort <= 65535 && l.port != l.sslPort
            && (l.sslPort != 0 ==> l.cert != "" && l.key != "")
            && (l.sslPort == 0 ==> l.cert == "" && l.key == "")
            && Ports(Fields(front)).Some?
            && Ports(Fields(front)).value.0 == l.port && Ports(Fields(front)).value.1 == l.sslPort
            && l.cert == LastValue(Fields(front), "ssl_certificate=")
            && l.key == LastValue(Fields(front), "ssl_private_key=")
  {
  }

  /** No token of the line sets anything. */
  predicate NoKeys(tokens: seq<string>)
  {
    forall i :: 0 <= i < |tokens| ==>
      !HasKey(tokens[i], PORT) && !HasKey(tokens[i], SSL_PORT) && !HasKey(tokens[i], CERT) && !HasKey(tokens[i], KEY)
  }

  lemma HeadHasNoKeys()
    ensures NoKeys(["rgw", "frontends", "=", "beast"])
  {
    assert PORT[0] == 'p' && SSL_PORT[0] == 's' && CERT[0] == 's' && KEY[0] == 's';
    assert "rgw"[0] == 'r' && "frontends"[0] == 'f' && "="[0] == '=' && "beast"[0] == 'b';
  }

  lemma {:induction false} NothingSet(tokens: seq<string>)
    requires NoKeys(tokens)
    ensures Ports(tokens) == Some((0, 0)) && LastValue(tokens, CERT) == "" && LastValue(tokens, KEY) == ""
  {
    if tokens != [] {
      NothingSet(tokens[..|tokens| - 1]);
    }
  }

  lemma PlainPorts(l: Listeners)
    requires l.port <= 65535
    ensures Ports(PlainTokens(l)) == Some((if l.port != 0 || !HasTls(l) then l.port else 0, 0))
    ensures LastValue(PlainTokens(l), CERT) == "" && LastValue(PlainTokens(l), KEY) == ""
  {
    var t4 := ["rgw", "frontends", "=", "beast"];
    HeadHasNoKeys();
    NothingSet(t4);
    if l.port != 0 || !HasTls(l) {
      var t := PORT + Itoa(l.port);
      PortToken(PORT, l.port);
      PortsAppend(t4, t);
      LastValueAppend(t4, t, CERT); LastValueAppend(t4, t, KEY);
      assert PlainTokens(l) == t4 + [t];
      assert t[0] == 'p' && CERT[0] == 's' && KEY[0] == 's';
    } else {
      assert PlainTokens(l) == t4;
    }
  }

  lemma PortToken(key: string, n: nat)
    requires n <= 65535
    ensures HasKey(key + Itoa(n), key) && Atoi((key + Itoa(n))[|key|..]) == Some(n)
  {
    ItoaRoundTrip(n);
    assert (key + Itoa(n))[|key|..] == Itoa(n);
  }

  lemma TlsPorts(l: Listeners, head: seq<string>)
    requires l.sslPort <= 65535 && Ports(head).Some?
    ensures var ts := head + [SSL_PORT + Itoa(l.sslPort)] + [CERT + l.cert] + [KEY + l.key];
            && Ports(ts) == Some((Ports(head).value.0, l.sslPort))
            && LastValue(ts, CERT) == l.cert && LastValue(ts, KEY) == l.key
  {
    var a, b, c := SSL_PORT + Itoa(l.sslPort), CERT + l.cert, KEY + l.key;
    PortToken(SSL_PORT, l.sslPort);
    assert a[0] == 's' && b[0] == 's' && c[0] == 's' && PORT[0] == 'p';
    assert a[4] == 'p' && b[4] == 'c' && c[4] == 'p' && SSL_PORT[4] == 'p' && CERT[4] == 'c' && KEY[4] == 'p';
    assert SSL_PORT[5] == 'o' && c[5] == 'r';
    PortsAppend(head, a); PortsAppend(head + [a], b); PortsAppend(head + [a] + [b], c);
    LastValueAppend(head + [a], b, CERT); LastValueAppend(head + [a] + [b], c, CERT);
    LastValueAppend(head + [a] + [b], c, KEY);
    assert b[|CERT|..] == l.cert && c[|KEY|..] == l.key;
  }

  /** Rendering valid settings and parsing the line gives the same ports, TLS flag and paths. */
  lemma RenderedFrontendParses(l: Listeners)
    requires ValidListeners(l)
    ensures ParseFrontend(RenderFrontend(l)) == Some(l)
    ensures Settled(RenderFrontend(l)) && RenderFrontend(l) != ""
  {
    RenderIsWords(l);
    WordsEnds(Tokens(l));
    FieldsOfWords(Tokens(l));
    TrimFixed(RenderFrontend(l));
    TokensParse(l);
    RenderedStart(l);
  }

  lemma TokensParse(l: Listeners)
    requires ValidListeners(l)
    ensures Ports(Tokens(l)) == Some((l.port, l.sslPort))
    ensures LastValue(Tokens(l), CERT) == l.cert && LastValue(Tokens(l), KEY) == l.key
  {
    PlainPorts(l);
    var plain := PlainTokens(l);
    if HasTls(l) {
      TlsPorts(l, plain);
      var a, b, c := SSL_PORT + Itoa(l.sslPort), CERT + l.cert, KEY + l.key;
      assert plain + [a, b, c] == plain + [a] + [b] + [c];
    } else {
      assert Tokens(l) == plain;
    }
  }

  lemma RenderedStart(l: Listeners)
    ensures "rgw frontends = beast " <= RenderFrontend(l) && FRONTEND <= RenderFrontend(l)
  {
    var line := RenderFrontend(l);
    var head := "rgw frontends = beast";
    assert line[..|head|] == head;
    assert line[|head|] == ' ';
    assert line[..|head| + 1] == head + " ";
    assert head[..|FRONTEND|] == FRONTEND;
    assert line[..|FRONTEND|] == head[..|FRONTEND|];
  }

  /** The line found in a freshly rendered file is the rendered frontend: nothing else in the file looks like one. */
  lemma RenderedFileHasFrontend(monitors: string, runDir: string, l: Listeners)
    requires ValidListeners(l)
    ensures FrontendLine(Render(monitors, runDir, l)) == RenderFrontend(l)
  {
    RenderedFrontendParses(l);
    var preamble, lines := Preamble(monitors, runDir), Render(monitors, runDir, l);
    PreambleHasNoFrontend(monitors, runDir);
    SkipLines(lines, |preamble|);
    assert lines[|preamble|..] == [RenderFrontend(l), ""];
  }

  lemma PreambleHasNoFrontend(monitors: string, runDir: string)
    ensures NoFrontends(Preamble(monitors, runDir))
  {
    BracketLines();
    OtherLines();
    RefreshedLines(monitors, runDir);
    var mon, run := MON_HOST + monitors, RUN_DIR + runDir;
    NoneInPair(HEADER, GLOBAL);
    NoneInPair(mon, run);
    NoneInPair(AUTH, "");
    NoneInPair(SECTION, INIT);
    NoneInBoth([HEADER, GLOBAL], [mon, run]);
    NoneInBoth([HEADER, GLOBAL] + [mon, run], [AUTH, ""]);
    NoneInBoth([HEADER, GLOBAL] + [mon, run] + [AUTH, ""], [SECTION, INIT]);
  }

  predicate NoFrontends(lines: seq<string>)
  {
    forall i :: 0 <= i < |lines| ==> !IsFrontend(lines[i])
  }

  lemma NoneInPair(a: string, b: string)
    requires !IsFrontend(a) && !IsFrontend(b)
    ensures NoFrontends([a, b])
  {
  }

  lemma NoneInBoth(a: seq<string>, b: seq<string>)
    requires NoFrontends(a) && NoFrontends(b)
    ensures NoFrontends(a + b)
  {
  }

  lemma BracketLines()
    ensures !IsFrontend(HEADER) && !IsFrontend(GLOBAL) && !IsFrontend(SECTION)
  {
    assert HEADER[0] == '#' && GLOBAL[0] == '[' && SECTION[0] == '[';
    NotFrontend(HEADER, 1);
    NotFrontend(GLOBAL, 1);
    NotFrontend(SECTION, 1);
  }

  lemma OtherLines()
    ensures !IsFrontend(AUTH) && !IsFrontend("") && !IsFrontend(INIT)
  {
    assert AUTH[0] == 'a' && INIT[0] == 'r' && INIT[4] == 'i';
    NotFrontend(AUTH, 1);
    NotFrontend(INIT, 5);
  }

  lemma RefreshedLines(monitors: string, runDir: string)
    ensures !IsFrontend(MON_HOST + monitors) && !IsFrontend(RUN_DIR + runDir)
  {
    assert (MON_HOST + monitors)[0] == 'm' && (RUN_DIR + runDir)[1] == 'u';
    NotFrontend(MON_HOST + monitors, 1);
    NotFrontend(RUN_DIR + runDir, 2);
  }

  lemma NotFrontend(line: string, n: nat)
    requires 0 < n <= |line| && n <= |FRONTEND|
    requires !IsSpace(line[0]) && !IsSpace(line[n - 1]) && line[n - 1] != FRONTEND[n - 1]
    ensures !IsFrontend(line)
  {
    TrimKeepsStart(line, n);
    assert Trim(line)[n - 1] == line[..n][n - 1];
  }

  lemma {:induction false} SkipLines(lines: seq<string>, n: nat)
    requires n <= |lines| && forall i :: 0 <= i < n ==> !IsFrontend(lines[i])
    ensures FrontendLine(lines) == FrontendLine(lines[n..])
  {
    if n > 0 {
      SkipLines(lines[1..], n - 1);
      assert lines[1..][n - 1..] == lines[n..];
    }
  }

  // ----- publication and rollback of the text -----

  /** What a publication writes: the new frontend line in place of the old, or the whole rendered file. */
  function PublishedText(lines: seq<string>, monitors: string, runDir: string, l: Listeners): seq<string>
  {
    if FrontendLine(lines) != "" then EditLines(FrontEdit(RenderFrontend(l)), lines) else Render(monitors, runDir, l)
  }

  /** What a rollback to `prev` writes over `current`. */
  function RolledBackText(prev: seq<string>, current: seq<string>): seq<string>
  {
    if FrontendLine(current) != "" then EditLines(FrontEdit(FrontendLine(prev)), current) else prev
  }

  /** A rendered file whose frontend line has been emptied. */
  function Blanked(monitors: string, runDir: string): seq<string>
  {
    Preamble(monitors, runDir) + ["", ""]
  }

  lemma BlankedRender(monitors: string, runDir: string, l: Listeners)
    requires ValidListeners(l)
    ensures EditLines(FrontEdit(""), Render(monitors, runDir, l)) == Blanked(monitors, runDir)
  {
    RenderedFrontendParses(l);
    PreambleHasNoFrontend(monitors, runDir);
    var lines, preamble := Render(monitors, runDir, l), Preamble(monitors, runDir);
    forall i | 0 <= i < |lines|
      ensures EditLine(FrontEdit(""), lines[i]) == Blanked(monitors, runDir)[i]
    {
      if i < |preamble| {
        assert lines[i] == preamble[i];
        assert !IsFrontend(preamble[i]);
      }
    }
  }

  lemma RefreshedHasFrontend(edits: seq<Edit>, lines: seq<string>)
    requires HasFrontend(lines) && forall k :: 0 <= k < |edits| ==> IsRefresh(edits[k])
    ensures FrontendLine(Refreshed(edits, lines)) != ""
  {
    var i :| 0 <= i < |lines| && IsFrontend(lines[i]);
    RefreshKeepsFrontends(edits, lines, i);
    FrontendLineSettled(Refreshed(edits, lines));
    assert IsFrontend(Refreshed(edits, lines)[i]);
  }

  /** Publication then rollback with any refreshes in between. A file with a frontend comes back, refreshed, with every
      frontend line set to the first one; of a file without one nothing comes back but an emptied rendered file. */
  lemma RolledBack(lines: seq<string>, monitors: string, runDir: string, l: Listeners, edits: seq<Edit>)
    requires ValidListeners(l) && forall i :: 0 <= i < |edits| ==> IsRefresh(edits[i])
    ensures RolledBackText(lines, Refreshed(edits, PublishedText(lines, monitors, runDir, l)))
         == Refreshed(edits, if HasFrontend(lines) then EditLines(FrontEdit(FrontendLine(lines)), lines)
                             else Blanked(monitors, runDir))
  {
    var prev, published := FrontendLine(lines), PublishedText(lines, monitors, runDir, l);
    FrontendLineSettled(lines);
    RenderedFrontendParses(l);
    if HasFrontend(lines) {
      FrontendAfterEdit(lines, RenderFrontend(l));
      EditTwice(FrontEdit(prev), FrontEdit(RenderFrontend(l)), lines);
    } else {
      RenderedFileHasFrontend(monitors, runDir, l);
      BlankedRender(monitors, runDir, l);
    }
    FrontendLineSettled(published);
    RefreshedHasFrontend(edits, published);
    FrontCommutesWithRefresh(edits, prev, published);
  }

  /** The file comes back as it was but for the refreshes. */
  predicate ComesBack(lines: seq<string>, monitors: string, runDir: string, l: Listeners, edits: seq<Edit>)
  {
    RolledBackText(lines, Refreshed(edits, PublishedText(lines, monitors, runDir, l))) == Refreshed(edits, lines)
  }

  /** The files that survive: all frontend lines trimmed and identical, or already what would be left. */
  predicate Survives(lines: seq<string>, monitors: string, runDir: string)
  {
    if HasFrontend(lines) then Canonical(lines) else lines == Blanked(monitors, runDir)
  }

  lemma SurvivorComesBack(lines: seq<string>, monitors: string, runDir: string, l: Listeners, edits: seq<Edit>)
    requires ValidListeners(l) && forall i :: 0 <= i < |edits| ==> IsRefresh(edits[i])
    requires Survives(lines, monitors, runDir)
    ensures ComesBack(lines, monitors, runDir, l, edits)
  {
    RolledBack(lines, monitors, runDir, l, edits);
    if HasFrontend(lines) { CanonicalEdit(lines); }
  }

  lemma OthersDoNotComeBack(lines: seq<string>, monitors: string, runDir: string, l: Listeners)
    requires ValidListeners(l) && !Survives(lines, monitors, runDir)
    ensures !ComesBack(lines, monitors, runDir, l, [])
  {
    RolledBack(lines, monitors, runDir, l, []);
    if HasFrontend(lines) {
      var i :| 0 <= i < |lines| && IsFrontend(lines[i]) && lines[i] != FrontendLine(lines);
      assert EditLines(FrontEdit(FrontendLine(lines)), lines)[i] != lines[i];
    }
  }

  predicate OnlyRefreshes(edits: seq<Edit>)
  {
    forall i :: 0 <= i < |edits| ==> IsRefresh(edits[i])
  }

  /** Any file at all comes back from every publication and rollback exactly when it is one of those. */
  lemma RollbackLeavesOnlyRefreshesIff(lines: seq<string>, monitors: string, runDir: string, l: Listeners)
    requires ValidListeners(l)
    ensures (forall edits :: OnlyRefreshes(edits) ==> ComesBack(lines, monitors, runDir, l, edits))
       <==> Survives(lines, monitors, runDir)
  {
    if Survives(lines, monitors, runDir) {
      forall edits | OnlyRefreshes(edits)
        ensures ComesBack(lines, monitors, runDir, l, edits)
      {
        SurvivorComesBack(lines, monitors, runDir, l, edits);
      }
    } else {
      OthersDoNotComeBack(lines, monitors, runDir, l);
      assert OnlyRefreshes([]);
    }
  }

  /** With a frontend the refreshes in between make no difference. */
  lemma FrontendFileComesBackIff(lines: seq<string>, monitors: string, runDir: string, l: Listeners, edits: seq<Edit>)
    requires ValidListeners(l) && HasFrontend(lines) && forall i :: 0 <= i < |edits| ==> IsRefresh(edits[i])
    ensures ComesBack(lines, monitors, runDir, l, edits) <==> Canonical(lines)
  {
    RolledBack(lines, monitors, runDir, l, edits);
    if Canonical(lines) {
      CanonicalEdit(lines);
    } else {
      var i :| 0 <= i < |lines| && IsFrontend(lines[i]) && lines[i] != FrontendLine(lines);
      var canonical := EditLines(FrontEdit(FrontendLine(lines)), lines);
      FrontendLineSettled(lines);
      assert canonical[i] == FrontendLine(lines) && IsFrontend(canonical[i]);
      RefreshKeepsFrontends(edits, lines, i);
      RefreshKeepsFrontends(edits, canonical, i);
    }
  }

  /** A witness without a recognised frontend line: its text does not come back. */
  lemma UnrecognisedFrontendIsLost(monitors: string, runDir: string)
    ensures var lines := ["rgw_frontends = beast port=80"];
            !HasFrontend(lines) && Canonical(lines) && !Survives(lines, monitors, runDir)
  {
    var line := "rgw_frontends = beast port=80";
    assert line[0] == 'r' && line[3] == '_' && FRONTEND[3] == ' ';
    NotFrontend(line, 4);
    assert |Blanked(monitors, runDir)| > 1;
  }
}
