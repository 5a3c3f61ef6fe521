/**
 * src/proxy_server.rs: `filter_hop_by_hop_headers` and its helpers (section 7.6.1 of RFC 9110),
 * and what the next reader makes of the head that is forwarded.
 */
module HopByHop {
  import opened Basics
  import opened HeaderSearch

  const HOP_BY_HOP: set<string> := {
    "connection", "keep-alive", "proxy-authenticate", "proxy-authorization", "proxy-connection",
    "te", "trailers", "transfer-encoding", "upgrade"
  }

  datatype Field = Field(name: string, value: string)

  /** `u8::is_ascii_whitespace`: tab, line feed, form feed, carriage return, space. */
  predicate IsAsciiWhitespace(c: char) {
    c == '\t' || c == '\n' || c == '\U{000C}' || c == '\r' || c == ' '
  }

  function ToLower(c: char): char {
    if 'A' <= c <= 'Z' then (c as int + 32) as char else c
  }

  function LowerCase(s: string): (r: string)
    ensures |r| == |s|
  {
    seq(|s|, i requires 0 <= i < |s| => ToLower(s[i]))
  }

  function TrimStart(s: string): string {
    if s != [] && IsAsciiWhitespace(s[0]) then TrimStart(s[1..]) else s
  }

  function TrimEnd(s: string): string {
    if s != [] && IsAsciiWhitespace(s[|s| - 1]) then TrimEnd(s[..|s| - 1]) else s
  }

  function Trim(s: string): string {
    TrimEnd(TrimStart(s))
  }

  /** The octets of tab, line feed, form feed, carriage return and space. */
  const BLANKS: set<int> := {9, 10, 12, 13, 32}

  predicate AllBlank(s: string) {
    forall k :: 0 <= k < |s| ==> s[k] as int in BLANKS
  }

  /** `r` is `s` without the blanks at its two ends. */
  ghost predicate IsTrimmed(s: string, r: string) {
    && (r == [] || (r[0] as int !in BLANKS && r[|r| - 1] as int !in BLANKS))
    && exists before, after :: s == before + r + after && AllBlank(before) && AllBlank(after)
  }

  lemma {:induction false} TrimStartPast(before: string, s: string)
    requires AllBlank(before) && (s == [] || s[0] as int !in BLANKS)
    ensures TrimStart(before + s) == s
  {
    if before == [] {
      assert before + s == s;
    } else {
      assert (before + s)[1..] == before[1..] + s;
      TrimStartPast(before[1..], s);
    }
  }

  lemma {:induction false} TrimEndPast(s: string, after: string)
    requires AllBlank(after) && (s == [] || s[|s| - 1] as int !in BLANKS)
    ensures TrimEnd(s + after) == s
  {
    var n := |after|;
    if n == 0 {
      assert s + after == s;
    } else {
      assert (s + after)[..|s + after| - 1] == s + after[..n - 1];
      TrimEndPast(s, after[..n - 1]);
    }
  }

  /** There is only one way to trim. */
  lemma TrimIff(s: string, r: string)
    ensures IsTrimmed(s, r) <==> r == Trim(s)
  {
    TrimMeaning(s);
    if IsTrimmed(s, r) {
      var before, after :| s == before + r + after && AllBlank(before) && AllBlank(after);
      if r == [] {
        assert s == (before + after) + [];
        TrimStartPast(before + after, []);
      } else {
        Associate(before, r, after);
        TrimStartPast(before, r + after);
        TrimEndPast(r, after);
      }
    }
  }

  lemma {:induction false} TrimStartMeaning(s: string) returns (before: string)
    ensures s == before + TrimStart(s) && AllBlank(before)
    ensures TrimStart(s) == [] || !IsAsciiWhitespace(TrimStart(s)[0])
  {
    before := [];
    if s != [] && IsAsciiWhitespace(s[0]) {
      var b := TrimStartMeaning(s[1..]);
      before := [s[0]] + b;
    }
  }

  lemma {:induction false} TrimEndMeaning(s: string) returns (after: string)
    ensures s == TrimEnd(s) + after && AllBlank(after)
    ensures TrimEnd(s) == [] || !IsAsciiWhitespace(TrimEnd(s)[|TrimEnd(s)| - 1])
  {
    after := [];
    if s != [] && IsAsciiWhitespace(s[|s| - 1]) {
      var a := TrimEndMeaning(s[..|s| - 1]);
      after := a + [s[|s| - 1]];
    }
  }

  lemma TrimMeaning(s: string)
    ensures IsTrimmed(s, Trim(s))
  {
    var before := TrimStartMeaning(s);
    var after := TrimEndMeaning(TrimStart(s));
    assert s == before + Trim(s) + after;
    assert Trim(s) != [] ==> TrimStart(s)[0] == Trim(s)[0];
  }

  method TrimAsciiBytes(bytes: string) returns (s: string)
    ensures s == Trim(bytes) && IsTrimmed(bytes, s)
  {
    s := bytes;
    while s != [] && IsAsciiWhitespace(s[0])
      invariant TrimStart(s) == TrimStart(bytes)
      decreases |s|
    {
      s := s[1..];
    }
    while s != [] && IsAsciiWhitespace(s[|s| - 1])
      invariant TrimEnd(s) == Trim(bytes)
      decreases |s|
    {
      s := s[..|s| - 1];
    }
    TrimMeaning(bytes);
  }

  /** `slice::split`: the pieces between occurrences of `sep`; always at least one. */
  function Split(s: string, sep: char): (r: seq<string>)
    ensures |r| > 0
    ensures forall i :: 0 <= i < |r| ==> sep !in r[i]
  {
    PositionIsFirst(s, sep);
    match Position(s, sep)
    case None => [s]
    case Some(i) => [s[..i]] + Split(s[i + 1..], sep)
  }

  lemma {:induction false} SplitJoined(pieces: seq<string>, sep: char)
    requires pieces != [] && IsListOf(Joined(pieces, sep), sep, pieces)
    ensures Split(Joined(pieces, sep), sep) == pieces
  {
    if |pieces| > 1 {
      SplitJoined(pieces[1..], sep);
      SplitFirst(pieces[0], sep, Joined(pieces[1..], sep));
    }
  }

  lemma {:induction false} JoinedSplit(s: string, sep: char)
    ensures Joined(Split(s, sep), sep) == s
    decreases |s|
  {
    if sep in s {
      var i := Position(s, sep).value;
      JoinedSplit(s[i + 1..], sep);
      assert Split(s, sep)[1..] == Split(s[i + 1..], sep);
      assert s == s[..i] + [sep] + s[i + 1..];
    }
  }

  /** Splitting undoes joining, and nothing else does. */
  lemma SplitIff(s: string, sep: char, pieces: seq<string>)
    ensures IsListOf(s, sep, pieces) <==> pieces == Split(s, sep)
  {
    JoinedSplit(s, sep);
    if IsListOf(s, sep, pieces) {
      SplitJoined(pieces, sep);
    }
  }

  lemma SplitFirst(first: string, sep: char, rest: string)
    requires sep !in first
    ensures Split(first + [sep] + rest, sep) == [first] + Split(rest, sep)
  {
    var s := first + [sep] + rest;
    PositionOf(first, sep, rest);
    assert s[..|first|] == first && s[|first| + 1..] == rest;
  }

  function StripCr(line: string): string {
    if line != [] && line[|line| - 1] == '\r' then line[..|line| - 1] else line
  }

  /** The non-empty ones among `pieces`, each without one trailing carriage return. */
  function NonEmpty(pieces: seq<string>): (r: seq<string>)
    ensures forall l :: l in r ==> l != []
    ensures (forall p :: p in pieces ==> '\n' !in p) ==> forall l :: l in r ==> '\n' !in l
  {
    if pieces == [] then []
    else
      assert pieces[0] in pieces && forall p :: p in pieces[1..] ==> p in pieces;
      (if StripCr(pieces[0]) == [] then [] else [StripCr(pieces[0])]) + NonEmpty(pieces[1..])
  }

  /** `iter_header_lines`. */
  function HeaderLines(headers: string): (r: seq<string>)
    ensures forall l :: l in r ==> l != [] && '\n' !in l
  {
    NonEmpty(Split(headers, '\n'))
  }

  /** `split_header_line`: name and value around the first colon; a line without a name is malformed. */
  function SplitHeaderLine(line: string): (r: Option<Field>)
    ensures r.Some? ==> ':' in line
  {
    match Position(line, ':')
    case None => None
    case Some(colon) =>
      var name := Trim(line[..colon]);
      if name == [] then None else Some(Field(name, Trim(line[colon + 1..])))
  }

  /** `line` has `name` before its first colon and `value` behind it, both without the blanks around them. */
  ghost predicate IsField(line: string, name: string, value: string) {
    exists colon ::
      && 0 <= colon < |line| && line[colon] == ':' && ':' !in line[..colon]
      && name != "" && IsTrimmed(line[..colon], name) && IsTrimmed(line[colon + 1..], value)
  }

  lemma FirstColon(line: string, colon: int)
    requires 0 <= colon < |line| && line[colon] == ':' && ':' !in line[..colon]
    ensures Position(line, ':') == Some(colon)
  {
    assert forall k :: 0 <= k < colon ==> line[k] == line[..colon][k];
    PositionAt(line, ':', colon);
  }

  lemma NoColonBefore(line: string)
    requires ':' in line
    ensures ':' !in line[..Position(line, ':').value]
  {
    PositionIsFirst(line, ':');
  }

  lemma FieldIff(line: string, name: string, value: string)
    ensures IsField(line, name, value) <==> SplitHeaderLine(line) == Some(Field(name, value))
  {
    hide IsTrimmed, Trim, Position;
    if IsField(line, name, value) {
      var colon :| && 0 <= colon < |line| && line[colon] == ':' && ':' !in line[..colon]
        && IsTrimmed(line[..colon], name) && IsTrimmed(line[colon + 1..], value);
      FirstColon(line, colon);
      TrimIff(line[..colon], name);
      TrimIff(line[colon + 1..], value);
    }
    if SplitHeaderLine(line) == Some(Field(name, value)) {
      var colon := Position(line, ':').value;
      NoColonBefore(line);
      TrimIff(line[..colon], name);
      TrimIff(line[colon + 1..], value);
    }
  }

  /** Lower case forgets exactly the case of ASCII letters. */
  lemma LowerCaseIff(a: string, b: string)
    ensures LowerCase(a) == LowerCase(b) <==> SameLetters(a, b)
  {
    assert forall i :: 0 <= i < |a| ==> LowerCase(a)[i] == ToLower(a[i]);
    assert forall i :: 0 <= i < |b| ==> LowerCase(b)[i] == ToLower(b[i]);
  }

  lemma LowerCaseIs(s: string, lower: string)
    requires forall i :: 0 <= i < |lower| ==> !('A' <= lower[i] <= 'Z')
    ensures LowerCase(s) == lower <==> SameLetters(s, lower)
  {
    assert LowerCase(lower) == lower;
    LowerCaseIff(s, lower);
  }

  /** One of the fields that are never forwarded. */
  predicate IsFixedName(name: string) {
    || SameLetters(name, "connection")
    || SameLetters(name, "keep-alive")
    || SameLetters(name, "proxy-authenticate")
    || SameLetters(name, "proxy-authorization")
    || SameLetters(name, "proxy-connection")
    || SameLetters(name, "te")
    || SameLetters(name, "trailers")
    || SameLetters(name, "transfer-encoding")
    || SameLetters(name, "upgrade")
  }

  lemma FixedNameIff(name: string)
    ensures LowerCase(name) in HOP_BY_HOP <==> IsFixedName(name)
  {
    hide LowerCase, SameLetters;
    LowerCaseIs(name, "connection");
    LowerCaseIs(name, "keep-alive");
    LowerCaseIs(name, "proxy-authenticate");
    LowerCaseIs(name, "proxy-authorization");
    LowerCaseIs(name, "proxy-connection");
    LowerCaseIs(name, "te");
    LowerCaseIs(name, "trailers");
    LowerCaseIs(name, "transfer-encoding");
    LowerCaseIs(name, "upgrade");
  }

  /** `name` is one of the non-empty members. */
  ghost predicate IsMember(pieces: seq<string>, name: string) {
    exists k, token ::
      0 <= k < |pieces| && token != "" && IsTrimmed(pieces[k], token) && SameLetters(token, name)
  }

  /** `line` is a Connection field whose comma-separated list has `name` as a member. */
  ghost predicate Lists(line: string, name: string) {
    exists connection, value, pieces ::
      && IsField(line, connection, value) && SameLetters(connection, "connection")
      && IsListOf(value, ',', pieces) && IsMember(pieces, name)
  }

  lemma MemberIff(pieces: seq<string>, name: string)
    ensures IsMember(pieces, name) <==> LowerCase(name) in TokenSet(pieces)
  {
    hide IsTrimmed, Trim, LowerCase, SameLetters;
    if IsMember(pieces, name) {
      var k, token :| 0 <= k < |pieces| && token != "" && IsTrimmed(pieces[k], token) && SameLetters(token, name);
      TrimIff(pieces[k], token);
      LowerCaseIff(token, name);
    }
    if LowerCase(name) in TokenSet(pieces) {
      var k :| 0 <= k < |pieces| && Trim(pieces[k]) != [] && LowerCase(Trim(pieces[k])) == LowerCase(name);
      TrimIff(pieces[k], Trim(pieces[k]));
      LowerCaseIff(Trim(pieces[k]), name);
    }
  }

  lemma ListsIff(line: string, name: string)
    ensures Lists(line, name) <==> LowerCase(name) in NamedBy(line)
  {
    hide IsField, SplitHeaderLine, IsListOf, IsMember, Split, TokenSet, LowerCase, SameLetters;
    if Lists(line, name) {
      var connection, value, pieces :| && IsField(line, connection, value) && SameLetters(connection, "connection")
        && IsListOf(value, ',', pieces) && IsMember(pieces, name);
      FieldIff(line, connection, value);
      LowerCaseIs(connection, "connection");
      SplitIff(value, ',', pieces);
      MemberIff(pieces, name);
    }
    if LowerCase(name) in NamedBy(line) {
      var field := SplitHeaderLine(line).value;
      var pieces := Split(field.value, ',');
      FieldIff(line, field.name, field.value);
      LowerCaseIs(field.name, "connection");
      SplitIff(field.value, ',', pieces);
      MemberIff(pieces, name);
    }
  }

  /** The names a line declares to be hop-by-hop: none unless it is a Connection field. */
  function NamedBy(line: string): set<string> {
    match SplitHeaderLine(line)
    case None => {}
    case Some(field) =>
      if LowerCase(field.name) == "connection" then TokenSet(Split(field.value, ',')) else {}
  }

  function TokenSet(pieces: seq<string>): set<string> {
    set k | 0 <= k < |pieces| && Trim(pieces[k]) != [] :: LowerCase(Trim(pieces[k]))
  }

  function ConnectionTokens(lines: seq<string>): set<string> {
    set i, t | 0 <= i < |lines| && t in NamedBy(lines[i]) :: t
  }

  predicate Kept(line: string, tokens: set<string>) {
    match SplitHeaderLine(line)
    case None => false
    case Some(field) => LowerCase(field.name) !in HOP_BY_HOP && LowerCase(field.name) !in tokens
  }

  function Body(lines: seq<string>): string {
    if lines == [] then [] else lines[0] + "\r\n" + Body(lines[1..])
  }

  /** The header section that carries `lines`. */
  function Render(lines: seq<string>): string {
    Body(lines) + "\r\n"
  }

  function KeepLines(lines: seq<string>, tokens: set<string>): (r: seq<string>)
    ensures forall l :: l in r <==> l in lines && Kept(l, tokens)
  {
    if lines == [] then []
    else
      assert lines == [lines[0]] + lines[1..];
      (if Kept(lines[0], tokens) then [lines[0]] else []) + KeepLines(lines[1..], tokens)
  }

  lemma {:induction false} KeepLinesAppend(lines: seq<string>, line: string, tokens: set<string>)
    ensures KeepLines(lines + [line], tokens) == KeepLines(lines, tokens) + if Kept(line, tokens) then [line] else []
  {
    hide Kept;
    var last := if Kept(line, tokens) then [line] else [];
    if lines == [] {
      assert lines + [line] == [line] && [line][1..] == [];
    } else {
      TailAppend(lines, [line]);
      KeepLinesAppend(lines[1..], line, tokens);
      Associate(if Kept(lines[0], tokens) then [lines[0]] else [], KeepLines(lines[1..], tokens), last);
    }
  }

  lemma {:induction false} KeepLinesAll(lines: seq<string>, tokens: set<string>)
    requires forall l :: l in lines ==> Kept(l, tokens)
    ensures KeepLines(lines, tokens) == lines
  {
    if lines != [] {
      KeepLinesAll(lines[1..], tokens);
    }
  }

  function KeptLines(lines: seq<string>): (r: seq<string>)
    ensures forall l :: l in r <==> l in lines && Kept(l, ConnectionTokens(lines))
    ensures forall l :: l in r ==> ':' in l
  {
    KeepLines(lines, ConnectionTokens(lines))
  }

  function FilterHeaders(headers: string): string {
    Render(KeptLines(HeaderLines(headers)))
  }

  lemma TokensStep(lines: seq<string>, i: nat)
    requires i < |lines|
    ensures ConnectionTokens(lines[..i + 1]) == ConnectionTokens(lines[..i]) + NamedBy(lines[i])
  {
    var before, after := lines[..i], lines[..i + 1];
    assert forall k :: 0 <= k < i ==> before[k] == after[k];
    assert after[i] == lines[i];
  }

  lemma TokenSetStep(pieces: seq<string>, j: nat)
    requires j < |pieces|
    ensures TokenSet(pieces[..j + 1])
         == TokenSet(pieces[..j]) + if Trim(pieces[j]) != [] then {LowerCase(Trim(pieces[j]))} else {}
  {
    var before, after := pieces[..j], pieces[..j + 1];
    assert forall k :: 0 <= k < j ==> before[k] == after[k];
    assert after[j] == pieces[j];
  }

  lemma KeepStep(lines: seq<string>, tokens: set<string>, i: nat)
    requires i < |lines|
    ensures Body(KeepLines(lines[..i + 1], tokens))
         == if Kept(lines[i], tokens) then Body(KeepLines(lines[..i], tokens)) + lines[i] + "\r\n"
            else Body(KeepLines(lines[..i], tokens))
  {
    assert lines[..i + 1] == lines[..i] + [lines[i]];
    KeepLinesAppend(lines[..i], lines[i], tokens);
    BodyAppend(KeepLines(lines[..i], tokens), lines[i]);
    assert KeepLines(lines[..i], tokens) + [] == KeepLines(lines[..i], tokens);
  }

  lemma {:induction false} BodyAppend(lines: seq<string>, line: string)
    ensures Body(lines + [line]) == Body(lines) + line + "\r\n"
  {
    if lines == [] {
      assert Body([line]) == line + "\r\n" + Body([]);
    } else {
      BodyAppend(lines[1..], line);
      assert (lines + [line])[1..] == lines[1..] + [line];
    }
  }

  lemma NextPiece(first: string, rest: string)
    requires '\n' !in first
    ensures HeaderLines(first + ['\n'] + rest)
         == (if StripCr(first) == [] then [] else [StripCr(first)]) + HeaderLines(rest)
  {
    SplitFirst(first, '\n', rest);
    assert ([first] + Split(rest, '\n'))[1..] == Split(rest, '\n');
  }

  lemma HeaderLinesFirst(line: string, rest: string)
    requires line != [] && '\n' !in line
    ensures HeaderLines(line + "\r\n" + rest) == [line] + HeaderLines(rest)
  {
    var first := line + "\r";
    assert line + "\r\n" + rest == first + ['\n'] + rest;
    NextPiece(first, rest);
    assert StripCr(first) == line;
  }

  /** `text` is `line` with its end: line feed, or carriage return and line feed. */
  predicate IsLine(text: string, line: string) {
    '\n' !in line && (text == line + "\r\n" || (text == line + "\n" && (line == "" || line[|line| - 1] != '\r')))
  }

  /** The lines of a section are read one by one, whatever ends they have; empty ones are left out. */
  lemma HeaderLinesNext(text: string, line: string, rest: string)
    requires IsLine(text, line)
    ensures HeaderLines(text + rest) == (if line == "" then [] else [line]) + HeaderLines(rest)
  {
    var first := if text == line + "\r\n" then line + "\r" else line;
    assert text == first + ['\n'];
    NextPiece(first, rest);
  }

  /** The last line may lack its end. */
  lemma HeaderLinesLast(line: string)
    requires '\n' !in line && (line == "" || line[|line| - 1] != '\r')
    ensures HeaderLines(line) == if line == "" then [] else [line]
    ensures HeaderLines(line + "\r") == if line == "" then [] else [line]
  {
    LastPiece(line);
    LastPiece(line + "\r");
    assert StripCr(line + "\r") == line;
  }

  lemma LastPiece(piece: string)
    requires '\n' !in piece
    ensures HeaderLines(piece) == if StripCr(piece) == [] then [] else [StripCr(piece)]
  {
    var pieces := [piece];
    assert Split(piece, '\n') == pieces;
    assert pieces[1..] == [];
    assert NonEmpty(pieces[1..]) == [];
  }

  lemma RenderFirst(lines: seq<string>)
    requires lines != []
    ensures Render(lines) == lines[0] + "\r\n" + Render(lines[1..])
  {
    assert lines[0] + "\r\n" + Body(lines[1..]) + "\r\n" == lines[0] + "\r\n" + (Body(lines[1..]) + "\r\n");
  }

  lemma HeaderLinesEmpty()
    ensures HeaderLines("\r\n") == []
  {
    assert "\r\n" == "\r" + ['\n'] + "";
    SplitFirst("\r", '\n', "");
    assert ["\r", ""][1..] == [""] && [""][1..] == [];
  }

  /** Lines that the line iterator can yield come back from a rendered section as they went in. */
  lemma {:induction false} RenderedLines(lines: seq<string>)
    requires forall l :: l in lines ==> l != [] && '\n' !in l
    ensures HeaderLines(Render(lines)) == lines
  {
    if lines == [] {
      HeaderLinesEmpty();
      assert Render(lines) == "\r\n";
    } else {
      assert lines[0] in lines && forall m :: m in lines[1..] ==> m in lines;
      RenderedLines(lines[1..]);
      RenderFirst(lines);
      HeaderLinesFirst(lines[0], Render(lines[1..]));
    }
  }

  /** `line` survives among `lines`: a field, not a fixed hop-by-hop one, and listed by no Connection field of them. */
  ghost predicate Survives(line: string, lines: seq<string>) {
    exists name, value ::
      IsField(line, name, value) && !IsFixedName(name) && forall other :: other in lines ==> !Lists(other, name)
  }

  lemma SurvivesIff(line: string, lines: seq<string>)
    ensures Survives(line, lines) <==> Kept(line, ConnectionTokens(lines))
  {
    hide IsField, SplitHeaderLine, Lists, NamedBy, LowerCase, IsFixedName;
    if Survives(line, lines) {
      var name, value :|
        IsField(line, name, value) && !IsFixedName(name) && forall other :: other in lines ==> !Lists(other, name);
      FieldIff(line, name, value);
      FixedNameIff(name);
      NotListed(name, lines);
    }
    if Kept(line, ConnectionTokens(lines)) {
      var field := SplitHeaderLine(line).value;
      FieldIff(line, field.name, field.value);
      FixedNameIff(field.name);
      NotListed(field.name, lines);
    }
  }

  lemma NotListed(name: string, lines: seq<string>)
    ensures (forall other :: other in lines ==> !Lists(other, name)) <==> LowerCase(name) !in ConnectionTokens(lines)
  {
    hide Lists, NamedBy, LowerCase;
    forall other | other in lines
      ensures Lists(other, name) <==> LowerCase(name) in NamedBy(other)
    {
      ListsIff(other, name);
    }
  }

  /** `kept` are the elements of `lines` at the ascending places `at`. */
  ghost predicate StandAt(kept: seq<string>, lines: seq<string>, at: seq<nat>) {
    && |at| == |kept|
    && (forall k :: 0 <= k < |at| ==> at[k] < |lines| && kept[k] == lines[at[k]])
    && forall j, k :: 0 <= j < k < |at| ==> at[j] < at[k]
  }

  /** `kept` are the survivors among `lines`, each as often as it came and in their order, at the places `at`. */
  ghost predicate ListsSurvivors(kept: seq<string>, lines: seq<string>, at: seq<nat>) {
    StandAt(kept, lines, at) && forall i :: 0 <= i < |lines| ==> (i in at <==> Survives(lines[i], lines))
  }

  lemma StandNext(kept: seq<string>, lines: seq<string>, at: seq<nat>, line: string)
    requires StandAt(kept, lines, at)
    ensures StandAt(kept, lines + [line], at)
    ensures StandAt(kept + [line], lines + [line], at + [|lines|])
  {
  }

  /** Where the kept lines stood. */
  lemma {:induction false} KeptAt(lines: seq<string>, tokens: set<string>) returns (at: seq<nat>)
    ensures StandAt(KeepLines(lines, tokens), lines, at)
    ensures forall i :: 0 <= i < |lines| ==> (i in at <==> Kept(lines[i], tokens))
  {
    hide Kept, StandAt, KeepLines;
    if lines == [] {
      at := [];
      NothingStands(tokens);
    } else {
      var n := |lines| - 1;
      var before := KeptAt(lines[..n], tokens);
      InRange(KeepLines(lines[..n], tokens), lines[..n], before);
      assert lines == lines[..n] + [lines[n]];
      KeepLinesAppend(lines[..n], lines[n], tokens);
      StandNext(KeepLines(lines[..n], tokens), lines[..n], before, lines[n]);
      at := if Kept(lines[n], tokens) then before + [n] else before;
      assert forall i :: i in at <==> i in before || (i == n && Kept(lines[n], tokens));
      assert KeepLines(lines[..n], tokens) + [] == KeepLines(lines[..n], tokens);
    }
  }

  lemma NothingStands(tokens: set<string>)
    ensures StandAt(KeepLines([], tokens), [], [])
  {
  }

  lemma InRange(kept: seq<string>, lines: seq<string>, at: seq<nat>)
    requires StandAt(kept, lines, at)
    ensures forall i :: i in at ==> i < |lines|
  {
  }

  /** Re-reading the filtered section yields exactly the surviving lines. */
  lemma FilterKeepsSurvivors(headers: string) returns (at: seq<nat>)
    ensures ListsSurvivors(HeaderLines(FilterHeaders(headers)), HeaderLines(headers), at)
  {
    hide Kept, KeepLines, Survives, Render, ConnectionTokens, HeaderLines, StandAt;
    var lines := HeaderLines(headers);
    KeptLinesRendered(lines);
    at := KeptAt(lines, ConnectionTokens(lines));
    forall i | 0 <= i < |lines|
      ensures Survives(lines[i], lines) <==> Kept(lines[i], ConnectionTokens(lines))
    {
      SurvivesIff(lines[i], lines);
    }
  }

  lemma KeptLinesRendered(lines: seq<string>)
    requires forall l :: l in lines ==> l != [] && '\n' !in l
    ensures HeaderLines(Render(KeptLines(lines))) == KeptLines(lines)
  {
    RenderedLines(KeptLines(lines));
  }

  method FilterHopByHopHeaders(headers: string) returns (filtered: string)
    ensures filtered == FilterHeaders(headers)
    ensures exists at :: ListsSurvivors(HeaderLines(filtered), HeaderLines(headers), at)
  {
    hide HeaderLines, Render, KeepLines, ListsSurvivors;
    var lines := HeaderLines(headers);
    var tokens := CollectTokens(lines);
    filtered := RenderKept(lines, tokens);
    ghost var at := FilterKeepsSurvivors(headers);
  }

  /** The first pass: every name that some Connection line declares. */
  method CollectTokens(lines: seq<string>) returns (tokens: set<string>)
    ensures tokens == ConnectionTokens(lines)
    ensures forall name :: LowerCase(name) in tokens <==> exists line :: line in lines && Lists(line, name)
  {
    tokens := {};
    for i := 0 to |lines|
      invariant tokens == ConnectionTokens(lines[..i])
    {
      TokensStep(lines, i);
      match SplitHeaderLine(lines[i])
      case None =>
      case Some(field) =>
        if LowerCase(field.name) == "connection" {
          var named := CollectList(Split(field.value, ','));
          tokens := tokens + named;
        }
    }
    assert lines[..|lines|] == lines;
    forall name
      ensures LowerCase(name) in tokens <==> exists line :: line in lines && Lists(line, name)
    {
      NotListed(name, lines);
    }
  }

  method CollectList(pieces: seq<string>) returns (named: set<string>)
    ensures named == TokenSet(pieces)
  {
    named := {};
    for j := 0 to |pieces|
      invariant named == TokenSet(pieces[..j])
    {
      TokenSetStep(pieces, j);
      var token := TrimAsciiBytes(pieces[j]);
      if token != [] {
        named := named + {LowerCase(token)};
      }
    }
    assert pieces[..|pieces|] == pieces;
  }

  /** The second pass: the lines that stay, each normalised to end in carriage return, line feed. */
  method RenderKept(lines: seq<string>, tokens: set<string>) returns (filtered: string)
    ensures filtered == Render(KeepLines(lines, tokens))
  {
    filtered := "";
    for i := 0 to |lines|
      invariant filtered == Body(KeepLines(lines[..i], tokens))
    {
      KeepStep(lines, tokens, i);
      if Kept(lines[i], tokens) {
        filtered := filtered + lines[i];
        filtered := filtered + "\r\n";
      }
    }
    assert lines[..|lines|] == lines;
    filtered := filtered + "\r\n";
  }

  /** Filtering twice is filtering once: what survives names nothing to remove. */
  lemma FilterIdempotent(headers: string)
    ensures FilterHeaders(FilterHeaders(headers)) == FilterHeaders(headers)
  {
    KeptLinesRendered(HeaderLines(headers));
    var kept := KeptLines(HeaderLines(headers));
    forall l | l in kept
      ensures NamedBy(l) == {}
    {
      assert LowerCase(SplitHeaderLine(l).value.name) != "connection";
    }
    assert ConnectionTokens(kept) == {};
    KeepLinesAll(kept, {});
  }

  /** The search skips a line whose only newline is last; `rest` follows that newline. */
  lemma SkipLine(before: string, line: string, rest: string)
    requires line != [] && Position(line, '\n') == Some(|line| - 1)
    ensures var buf, last := before + line + rest, |before| + |line| - 1;
            && SearchFrom(buf, |before|) == SearchFrom(buf, last)
            && |buf| == last + 1 + |rest| && buf[last] == '\n'
            && (|rest| >= 1 ==> buf[last + 1] == rest[0]) && (|rest| >= 2 ==> buf[last + 2] == rest[1])
  {
    var buf, last := before + line + rest, |before| + |line| - 1;
    PositionIsFirst(line, '\n');
    forall k | |before| <= k < last
      ensures buf[k] != '\n'
    {
      assert buf[k] == line[k - |before|];
    }
    SkipTo(buf, |before|, last);
  }

  lemma LineAndEnd(line: string)
    requires line != [] && '\n' !in line
    ensures var next := line + "\r\n";
            next != [] && Position(next, '\n') == Some(|next| - 1) && next[0] != '\n' && next[1] != '\n'
  {
    var next := line + "\r\n";
    PositionAt(next, '\n', |line| + 1);
  }

  /** A request line and the lines after it: the only place where a head can end is the very end. */
  lemma {:induction false} OneHeadFrom(before: string, line: string, lines: seq<string>)
    requires line != [] && Position(line, '\n') == Some(|line| - 1)
    requires forall l :: l in lines ==> l != [] && '\n' !in l
    ensures SearchFrom(before + line + Render(lines), |before|) == Some(|before + line + Render(lines)|)
    decreases |lines|
  {
    var rest := Render(lines);
    SkipLine(before, line, rest);
    if lines == [] {
      assert rest == "\r\n";
    } else {
      var l, tail := lines[0], Render(lines[1..]);
      assert l in lines && forall m :: m in lines[1..] ==> m in lines;
      RenderFirst(lines);
      hide Render, Position;
      LineAndEnd(l);
      OneHeadFrom(before + line, l + "\r\n", lines[1..]);
      Associate(before + line, l + "\r\n", tail);
      NotHere(before, line, rest);
    }
  }

  lemma NotHere(before: string, line: string, rest: string)
    requires line != [] && |rest| >= 2 && rest[0] != '\n' && rest[1] != '\n'
    ensures var buf, last := before + line + rest, |before| + |line| - 1;
            SearchFrom(buf, last) == SearchFrom(buf, last + 1)
  {
    var buf, last := before + line + rest, |before| + |line| - 1;
    assert buf[last + 1] == rest[0] && buf[last + 2] == rest[1];
    assert !Begins(buf, last);
  }

  lemma OneHead(requestLine: string, lines: seq<string>)
    requires requestLine != [] && Position(requestLine, '\n') == Some(|requestLine| - 1)
    requires forall l :: l in lines ==> ':' in l && '\n' !in l
    ensures Search(requestLine + Render(lines)) == Some(|requestLine + Render(lines)|)
  {
    assert [] + requestLine + Render(lines) == requestLine + Render(lines);
    OneHeadFrom([], requestLine, lines);
  }

  /** Whatever bytes arrived as headers, the forwarded head is one head and nothing more. */
  lemma ForwardedHeadIsOneHead(requestLine: string, headers: string)
    requires requestLine != [] && Position(requestLine, '\n') == Some(|requestLine| - 1)
    ensures Search(requestLine + FilterHeaders(headers)) == Some(|requestLine + FilterHeaders(headers)|)
  {
    OneHead(requestLine, KeptLines(HeaderLines(headers)));
  }
}
