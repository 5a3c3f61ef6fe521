/**
 * HTTP CONNECT between two chained forwarders: `http_connect` in src/proxy_client.rs prints the
 * request and reads the reply, `handle_http` in src/proxy_server.rs parses the request and answers
 * (section 9.3.6 of RFC 9110, section 3.2.3 of RFC 9112).  Where text and stream meet, one character
 * is one octet.
 */
module HttpConnect {
  import opened Basics
  import opened HeadReader
  import opened HeaderSearch
  import opened HopByHop
  import opened HttpText
  import opened Streams

  const HTTPS_DEFAULT_PORT: port := 443

  /** A start line: three parts separated by single spaces, ended by carriage return, line feed. */
  function StartLine(a: string, b: string, c: string): string {
    a + [' '] + (b + [' '] + (c + ['\r', '\n']))
  }

  /** `HTTP/1.1 200 Connection Established` and no fields. */
  const ESTABLISHED := StartLine("HTTP/1.1", "200", "Connection Established") + Render([])

  /** `HTTP/1.1 502 Bad Gateway` with its two fields. */
  const BAD_GATEWAY := StartLine("HTTP/1.1", "502", "Bad Gateway") + Render([CONTENT_LENGTH, CLOSE])
  const CONTENT_LENGTH := "Content-Length: 0"
  const CLOSE := "Connection: close"

  datatype Target = Target(host: string, port: port)

  // ---- The client's request ----

  function FormatHost(host: string): string {
    if ':' in host && !(host != [] && host[0] == '[') then ['['] + host + [']'] else host
  }

  function PortSuffix(p: port): (s: string)
    ensures 1 < |s| && s[0] == ':' && s[1..] == Decimal(p)
  {
    [':'] + Decimal(p)
  }

  function Authority(target: Target): string {
    FormatHost(target.host) + PortSuffix(target.port)
  }

  function RequestLine(target: Target): string {
    StartLine("CONNECT", Authority(target), "HTTP/1.1")
  }

  function HostField(target: Target): string {
    "Host: " + Authority(target)
  }

  /** The printed request: the request line, one Host field, a blank line. */
  function ConnectRequest(target: Target): string {
    RequestLine(target) + Render([HostField(target)])
  }

  // ---- The server's parser ----

  predicate IsAscii(s: string) {
    forall c :: c in s ==> c < '\U{80}'
  }

  datatype ParseError = NoRequestLine | TooFewWords | NotConnect | UnclosedBracket

  function PortOrDefault(s: string): port {
    match ParseU16(s)
    case Some(p) => p
    case None => HTTPS_DEFAULT_PORT
  }

  /** The port of a bracketed authority, from what follows the bracket. */
  function BracketedPort(tail: string): port {
    if 1 < |tail| && tail[0] == ':' then PortOrDefault(tail[1..]) else HTTPS_DEFAULT_PORT
  }

  function ParseAuthority(uri: string): Result<Target, ParseError> {
    if uri != [] && uri[0] == '[' then
      match Position(uri, ']')
      case None => Err(UnclosedBracket)
      case Some(end) => Ok(Target(uri[1..end], BracketedPort(uri[end + 1..])))
    else
      match LastPosition(uri, ':')
      case Some(colon) => Ok(Target(uri[..colon], PortOrDefault(uri[colon + 1..])))
      case None => Ok(Target(uri, HTTPS_DEFAULT_PORT))
  }

  /** The CONNECT part of `handle_http`, on the head that was read. */
  function ParseConnect(head: string): Result<Target, ParseError> {
    match Position(head, '\n')
    case None => Err(NoRequestLine)
    case Some(newline) =>
      var parts := Words(head[..newline + 1]);
      if |parts| < 2 then Err(TooFewWords)
      else if UpperCase(parts[0]) != "CONNECT" then Err(NotConnect)
      else ParseAuthority(parts[1])
  }

  // ---- What the parser accepts, in terms of the text ----

  /** `text` writes `p`; a text that writes no port means the default. */
  ghost predicate NamesPort(text: string, p: port) {
    Writes(text, p) || (p == 443 && forall q: port :: !Writes(text, q))
  }

  lemma NamesPortIff(text: string, p: port)
    ensures NamesPort(text, p) <==> PortOrDefault(text) == p
  {
    hide ParseU16, Writes;
    forall q: port
      ensures ParseU16(text) == Some(q) <==> Writes(text, q)
    {
      ParseU16Iff(text, q);
    }
  }

  /** What stands behind the closing bracket: a colon and a port, or anything that means the default. */
  ghost predicate NamesBracketPort(rest: string, p: port) {
    if 2 <= |rest| && rest[0] == ':' then NamesPort(rest[1..], p) else p == 443
  }

  /** The host in brackets up to the first closing one, or else everything up to the last colon, or everything. */
  ghost predicate IsAuthority(uri: string, target: Target) {
    if uri != "" && uri[0] == '[' then
      exists rest ::
        uri == "[" + target.host + "]" + rest && ']' !in target.host && NamesBracketPort(rest, target.port)
    else if ':' in uri then
      exists text :: uri == target.host + ":" + text && ':' !in text && NamesPort(text, target.port)
    else
      target == Target(uri, 443)
  }

  lemma BracketedIff(uri: string, target: Target)
    requires uri != "" && uri[0] == '['
    ensures IsAuthority(uri, target) <==> ParseAuthority(uri) == Ok(target)
  {
    hide PortOrDefault, NamesPort, Position;
    PositionIsFirst(uri, ']');
    forall text
      ensures NamesPort(text, target.port) <==> PortOrDefault(text) == target.port
    {
      NamesPortIff(text, target.port);
    }
    if IsAuthority(uri, target) {
      var rest :| uri == "[" + target.host + "]" + rest && ']' !in target.host
        && NamesBracketPort(rest, target.port);
      PositionOf("[" + target.host, ']', rest);
      assert uri == "[" + target.host + [']'] + rest;
      var end := |target.host| + 1;
      assert uri[1..end] == target.host && uri[end + 1..] == rest;
    }
    if ParseAuthority(uri) == Ok(target) {
      var end := Position(uri, ']').value;
      BracketSlices(uri, end);
      assert uri == "[" + target.host + "]" + uri[end + 1..] && NamesBracketPort(uri[end + 1..], target.port);
    }
  }

  lemma BracketSlices(uri: string, end: nat)
    requires 0 < end < |uri| && uri[0] == '[' && uri[end] == ']' && forall k :: 0 <= k < end ==> uri[k] != ']'
    ensures uri == "[" + uri[1..end] + "]" + uri[end + 1..] && ']' !in uri[1..end]
  {
  }

  lemma PlainIff(uri: string, target: Target)
    requires uri == "" || uri[0] != '['
    ensures IsAuthority(uri, target) <==> ParseAuthority(uri) == Ok(target)
  {
    hide PortOrDefault, NamesPort, LastPosition;
    if IsAuthority(uri, target) && ':' in uri {
      var text :| uri == target.host + ":" + text && ':' !in text && NamesPort(text, target.port);
      NamesPortIff(text, target.port);
      LastPositionOf(target.host, ':', text);
      assert uri == target.host + ([':'] + text);
    }
    if ParseAuthority(uri) == Ok(target) && ':' in uri {
      var colon := LastPosition(uri, ':').value;
      NamesPortIff(uri[colon + 1..], target.port);
      assert uri == uri[..colon] + ":" + uri[colon + 1..];
      NotBehind(uri, ':', colon);
    }
  }

  lemma NotBehind(s: string, x: char, i: nat)
    requires i < |s| && forall k :: i < k < |s| ==> s[k] != x
    ensures x !in s[i + 1..]
  {
  }

  /** Exactly this is parsed from an authority; refused is only an opening bracket without a closing one. */
  lemma AuthorityIff(uri: string, target: Target)
    ensures IsAuthority(uri, target) <==> ParseAuthority(uri) == Ok(target)
    ensures ParseAuthority(uri).Err? <==> uri != "" && uri[0] == '[' && ']' !in uri
    ensures ParseAuthority(uri).Err? ==> ParseAuthority(uri).error == UnclosedBracket
  {
    hide IsAuthority, PortOrDefault;
    if uri != "" && uri[0] == '[' {
      BracketedIff(uri, target);
    } else {
      PlainIff(uri, target);
    }
  }

  /** `line` is the beginning of `head` up to its first line feed. */
  predicate IsFirstLine(head: string, line: string) {
    line <= head && line != "" && line[|line| - 1] == '\n' && '\n' !in line[..|line| - 1]
  }

  lemma FirstLineAt(head: string, line: string)
    requires IsFirstLine(head, line)
    ensures Position(head, '\n') == Some(|line| - 1) && head[..|line|] == line
  {
    assert forall k :: 0 <= k < |line| - 1 ==> head[k] == line[..|line| - 1][k];
    PositionAt(head, '\n', |line| - 1);
  }

  /** A head is a CONNECT by its first word, in any case, and names its target by the second. */
  lemma ConnectMeans(head: string, line: string, words: seq<string>)
    requires IsFirstLine(head, line) && Spells(line, words)
    ensures ParseConnect(head) == if |words| < 2 then Err(TooFewWords)
                                  else if SameLetters(words[0], "CONNECT") then ParseAuthority(words[1])
                                  else Err(NotConnect)
  {
    hide Words, Spells, Position, ParseAuthority, UpperCase, SameLetters;
    FirstLineAt(head, line);
    WordsIff(line, words);
    if |words| >= 2 {
      UpperCaseIs(words[0], "CONNECT");
    }
  }

  // ---- Round trip ----

  /** The host without the brackets of an IPv6 literal. */
  function Unbracketed(host: string): string {
    if 2 <= |host| && host[0] == '[' && host[|host| - 1] == ']' then host[1..|host| - 1] else host
  }

  /**
   * The hosts that survive the wire: no whitespace; a bracketed one closes only at its end; one
   * that will be bracketed holds no closing bracket itself.
   */
  predicate Transmissible(host: string) {
    && !HasWhitespace(host)
    && (if host != [] && host[0] == '[' then Position(host, ']') == Some(|host| - 1)
        else ':' in host ==> ']' !in host)
  }

  lemma StartLineNewline(a: string, b: string, c: string)
    requires '\n' !in a && '\n' !in b && '\n' !in c
    ensures StartLine(a, b, c) != [] && Position(StartLine(a, b, c), '\n') == Some(|StartLine(a, b, c)| - 1)
  {
    hide Position;
    LineEnd(c);
    ShiftWord(b, c + ['\r', '\n']);
    ShiftWord(a, b + [' '] + (c + ['\r', '\n']));
  }

  lemma LineEnd(text: string)
    requires '\n' !in text
    ensures '\n' in text + ['\r', '\n']
    ensures Position(text + ['\r', '\n'], '\n') == Some(|text| + 1)
  {
    var end := ['\r', '\n'];
    assert end[1..] == ['\n'];
    PositionShift(text, end, '\n');
  }

  lemma ShiftWord(word: string, s: string)
    requires '\n' !in word && '\n' in s
    ensures '\n' in word + [' '] + s
    ensures Position(word + [' '] + s, '\n') == Some(|word| + 1 + Position(s, '\n').value)
  {
    PositionShift(word + [' '], s, '\n');
  }

  lemma StartLineWords(a: string, b: string, c: string)
    requires a != [] && b != [] && !HasWhitespace(a) && !HasWhitespace(b)
    ensures |Words(StartLine(a, b, c))| >= 2
    ensures Words(StartLine(a, b, c))[0] == a && Words(StartLine(a, b, c))[1] == b
  {
    WordsFirst(a, ' ', b + [' '] + (c + ['\r', '\n']));
    WordsFirst(b, ' ', c + ['\r', '\n']);
  }

  lemma AuthorityClean(target: Target)
    requires !HasWhitespace(target.host)
    ensures !HasWhitespace(Authority(target)) && ':' in Authority(target)
  {
    var uri := Authority(target);
    assert uri[|FormatHost(target.host)|] == ':';
    forall c | c in uri
      ensures !IsWhitespace(c)
    {
      assert c in FormatHost(target.host) || c == ':' || c in Decimal(target.port);
      assert c in FormatHost(target.host) ==> c in target.host || c == '[' || c == ']';
    }
  }

  /** A head whose start line is known is parsed by that line's first two words. */
  lemma ParsedStartLine(a: string, b: string, c: string, fields: string)
    requires a != [] && b != [] && !HasWhitespace(a) && !HasWhitespace(b) && '\n' !in c
    ensures ParseConnect(StartLine(a, b, c) + fields)
         == if UpperCase(a) == "CONNECT" then ParseAuthority(b) else Err(NotConnect)
  {
    var line := StartLine(a, b, c);
    StartLineNewline(a, b, c);
    StartLineWords(a, b, c);
    PositionPrefix(line, '\n', fields);
    assert (line + fields)[..|line|] == line;
  }

  /** What the parser makes of the printed request, for a host without whitespace. */
  lemma ParsedRequest(target: Target)
    requires !HasWhitespace(target.host)
    ensures ParseConnect(ConnectRequest(target)) == ParseAuthority(Authority(target))
  {
    AuthorityClean(target);
    ConnectLiterals();
    ParsedStartLine("CONNECT", Authority(target), "HTTP/1.1", Render([HostField(target)]));
  }

  lemma ConnectLiterals()
    ensures !HasWhitespace("CONNECT") && UpperCase("CONNECT") == "CONNECT"
    ensures '\n' !in "HTTP/1.1"
  {
  }

  lemma SuffixPort(p: port)
    ensures BracketedPort(PortSuffix(p)) == p
  {
    ParsePrintedPort(p);
  }

  lemma SliceOfPrefix(s: string, after: string, i: nat, j: nat)
    requires i <= j <= |s|
    ensures (s + after)[i..j] == s[i..j] && (s + after)[j..] == s[j..] + after
  {
  }

  /** A bracketed authority is cut at its first closing bracket. */
  lemma CutAuthority(host: string, end: nat, suffix: string)
    requires host != [] && host[0] == '[' && Position(host, ']') == Some(end)
    ensures ParseAuthority(host + suffix) == Ok(Target(host[1..end], BracketedPort(host[end + 1..] + suffix)))
  {
    hide Position, BracketedPort;
    PositionPrefix(host, ']', suffix);
    SliceOfPrefix(host, suffix, 1, end);
    SliceOfPrefix(host, suffix, 1, end + 1);
  }

  lemma SuffixColon(host: string, p: port)
    ensures LastPosition(host + PortSuffix(p), ':') == Some(|host|)
    ensures PortOrDefault(PortSuffix(p)[1..]) == p
  {
    hide LastPosition;
    LastPositionOf(host, ':', Decimal(p));
    ParsePrintedPort(p);
  }

  lemma PlainAuthority(host: string, p: port)
    requires host == [] || host[0] != '['
    ensures ParseAuthority(host + PortSuffix(p)) == Ok(Target(host, p))
  {
    hide LastPosition, PortSuffix, PortOrDefault, Position, BracketedPort;
    var uri := host + PortSuffix(p);
    SuffixColon(host, p);
    Halves(host, PortSuffix(p));
    assert uri[|host| + 1..] == uri[|host|..][1..];
  }

  lemma AuthorityHost(uri: string)
    ensures ParseAuthority(uri).Ok? ==> forall c :: c in ParseAuthority(uri).value.host ==> c in uri
  {
  }

  lemma NoWhitespaceParsed(head: string)
    ensures ParseConnect(head).Ok? ==> !HasWhitespace(ParseConnect(head).value.host)
  {
    if ParseConnect(head).Ok? {
      var words := Words(head[..Position(head, '\n').value + 1]);
      assert IsWord(words[1]);
      AuthorityHost(words[1]);
    }
  }

  lemma UnbracketedWhitespace(host: string)
    requires HasWhitespace(host)
    ensures HasWhitespace(Unbracketed(host))
  {
    var c :| c in host && IsWhitespace(c);
    if Unbracketed(host) != host {
      assert host == [host[0]] + Unbracketed(host) + [host[|host| - 1]];
      assert c in Unbracketed(host);
    }
  }

  lemma BracketedRoundTrip(host: string, p: port)
    requires host != [] && host[0] == '['
    ensures ParseAuthority(host + PortSuffix(p)) == Ok(Target(Unbracketed(host), p))
       <==> Position(host, ']') == Some(|host| - 1)
  {
    hide Unbracketed, PortSuffix, BracketedPort, ParseAuthority, Position;
    if ']' in host {
      var end := Position(host, ']').value;
      CutAuthority(host, end, PortSuffix(p));
      UnbracketedCut(host, end);
      WholeSuffix(host, p);
    } else {
      Unclosed(host, p);
    }
  }

  lemma UnbracketedCut(host: string, end: nat)
    requires host != [] && host[0] == '[' && Position(host, ']') == Some(end)
    ensures host[1..end] == Unbracketed(host) <==> end == |host| - 1
  {
    hide Position;
    if end < |host| - 1 {
      assert |host[1..end]| < |Unbracketed(host)|;
    } else {
      assert host[1..end] == host[1..|host| - 1];
    }
  }

  lemma WholeSuffix(host: string, p: port)
    ensures BracketedPort(host[|host|..] + PortSuffix(p)) == p
  {
    SuffixPort(p);
    assert host[|host|..] + PortSuffix(p) == PortSuffix(p);
  }

  lemma WrappedHost(host: string)
    ensures Unbracketed(['['] + host + [']']) == host
  {
  }

  lemma WrappedAt(host: string, i: nat)
    requires i <= |host| && (i < |host| ==> host[i] == ']') && forall k :: 0 <= k < i ==> host[k] != ']'
    ensures Position(['['] + host + [']'], ']') == Some(i + 1)
  {
    PositionAt(['['] + host + [']'], ']', i + 1);
  }

  lemma AuthorityRoundTrip(target: Target)
    requires !HasWhitespace(target.host)
    ensures ParseAuthority(Authority(target)) == Ok(Target(Unbracketed(target.host), target.port))
       <==> Transmissible(target.host)
  {
    hide ParseAuthority, HasWhitespace, PortSuffix, BracketedPort, Position, WordLength;
    var host := target.host;
    if host != [] && host[0] == '[' {
      BracketedRoundTrip(host, target.port);
    } else if ':' in host {
      WrappedRoundTrip(host, target.port);
    } else {
      PlainAuthority(host, target.port);
    }
  }

  lemma WrappedRoundTrip(host: string, p: port)
    requires host != [] && host[0] != '[' && ':' in host
    ensures ParseAuthority(Authority(Target(host, p))) == Ok(Target(host, p)) <==> ']' !in host
  {
    hide ParseAuthority, PortSuffix, BracketedPort, Position, Unbracketed;
    WrappedHost(host);
    PositionIsFirst(host, ']');
    WrappedAt(host, if ']' in host then Position(host, ']').value else |host|);
    BracketedRoundTrip(FormatHost(host), p);
  }

  /** The printed request is parsed back to its unbracketed host and its port exactly for transmissible hosts. */
  lemma ConnectRoundTrip(target: Target)
    ensures ParseConnect(ConnectRequest(target)) == Ok(Target(Unbracketed(target.host), target.port))
       <==> Transmissible(target.host)
  {
    if HasWhitespace(target.host) {
      NoWhitespaceParsed(ConnectRequest(target));
      UnbracketedWhitespace(target.host);
    } else {
      ParsedRequest(target);
      AuthorityRoundTrip(target);
    }
  }

  // ---- The hosts that do not come back ----

  /** What the server makes of them: no target without a closing bracket, else a cut host and the default port. */
  function CutTarget(host: string): Result<Target, ParseError>
    requires host != []
  {
    match Position(host, ']')
    case None => Err(UnclosedBracket)
    case Some(end) => Ok(Target(host[if host[0] == '[' then 1 else 0..end], HTTPS_DEFAULT_PORT))
  }

  /** Text behind the bracket that is more than a colon and digits names no port. */
  lemma NoPort(tail: string, i: nat)
    requires i < |tail| && (i == 0 ==> tail[0] == ']') && (tail[i] == ':' || tail[i] == ']')
    requires i > 0 || tail[0] != ':'
    ensures BracketedPort(tail) == HTTPS_DEFAULT_PORT
  {
    if tail[0] == ':' && 1 < |tail| {
      var s := tail[1..];
      assert s[i - 1] == tail[i];
      var digits := if s[0] == '+' then s[1..] else s;
      assert s[0] == '+' ==> i >= 2 && digits[i - 2] == tail[i];
      assert !AllDigits(digits);
    }
  }

  /** A bracketed host with something behind its first closing bracket loses that and its port. */
  lemma BracketedCut(host: string, end: nat, p: port)
    requires host != [] && host[0] == '[' && Position(host, ']') == Some(end) && end + 1 < |host|
    ensures ParseAuthority(host + PortSuffix(p)) == CutTarget(host)
  {
    hide PortSuffix, BracketedPort, ParseAuthority, Position;
    CutAuthority(host, end, PortSuffix(p));
    ColonBehind(host[end + 1..], p);
  }

  /** A host with an opening bracket and no closing one is refused. */
  lemma Unclosed(host: string, p: port)
    requires host != [] && host[0] == '[' && ']' !in host
    ensures ParseAuthority(host + PortSuffix(p)) == CutTarget(host)
  {
    assert forall c :: c in PortSuffix(p) ==> c == ':' || c in Decimal(p);
    assert ']' !in host + PortSuffix(p);
  }

  lemma ColonBehind(text: string, p: port)
    requires text != []
    ensures BracketedPort(text + PortSuffix(p)) == HTTPS_DEFAULT_PORT
  {
    NoPort(text + PortSuffix(p), |text|);
  }

  /** A host that the client puts in brackets is cut at its own first closing bracket. */
  lemma WrappedCut(host: string, end: nat, p: port)
    requires host != [] && host[0] != '[' && ':' in host && Position(host, ']') == Some(end)
    ensures ParseAuthority(Authority(Target(host, p))) == CutTarget(host)
  {
    hide PortSuffix, BracketedPort, ParseAuthority;
    var wrapped := ['['] + host + [']'];
    PositionIsFirst(host, ']');
    WrappedAt(host, end);
    hide Position;
    CutAuthority(wrapped, end + 1, PortSuffix(p));
    WrappedSlices(host, end);
    BracketBehind(host[end + 1..], p);
  }

  lemma WrappedSlices(host: string, end: nat)
    requires end < |host|
    ensures var wrapped := ['['] + host + [']'];
            wrapped[1..end + 1] == host[..end] && wrapped[end + 2..] == host[end + 1..] + [']']
  {
  }

  lemma BracketBehind(text: string, p: port)
    ensures BracketedPort(text + [']'] + PortSuffix(p)) == HTTPS_DEFAULT_PORT
  {
    NoPort(text + [']'] + PortSuffix(p), |text|);
  }

  /**
   * Every other host without whitespace: the port is lost, and the host is cut at its first closing
   * bracket or refused.
   */
  lemma CutHost(host: string, p: port)
    requires !HasWhitespace(host) && !Transmissible(host)
    ensures host != [] && ParseConnect(ConnectRequest(Target(host, p))) == CutTarget(host)
  {
    hide ParseConnect, ParseAuthority, CutTarget, Decimal;
    ParsedRequest(Target(host, p));
    if host[0] == '[' && ']' in host {
      BracketedCut(host, Position(host, ']').value, p);
    } else if host[0] == '[' {
      Unclosed(host, p);
    } else {
      WrappedCut(host, Position(host, ']').value, p);
    }
  }

  lemma CutHostExample(host: string)
    requires host == "a:b]c"
    ensures ParseConnect(ConnectRequest(Target(host, 80))) == Ok(Target(host[..3], HTTPS_DEFAULT_PORT))
  {
    PositionOf(host[..3], ']', host[4..]);
    assert host == host[..3] + [']'] + host[4..];
    CutHost(host, 80);
  }

  // ---- The exchange ----

  /** The request is one head, whatever the client sends behind it. */
  lemma RequestIsOneHead(target: Target, early: string)
    requires !HasWhitespace(target.host)
    ensures Search(ConnectRequest(target) + early) == Some(|ConnectRequest(target)|)
  {
    AuthorityClean(target);
    ConnectLiterals();
    StartLineNewline("CONNECT", Authority(target), "HTTP/1.1");
    OneHeadThen(RequestLine(target), [HostField(target)], early);
  }

  /**
   * Two chained forwarders: whatever the client sends behind its request, the second forwarder
   * splits the request off exactly, takes it for HTTP by its first byte, and reads back the
   * client's target; only a request longer than the limit is refused.
   */
  lemma ChainedConnect(target: Target, early: string)
    requires Transmissible(target.host) && IsAscii(target.host)
    ensures ConnectRequest(target) != [] && ConnectRequest(target)[0] == 'C'
    ensures (ConnectRequest(target) + early)[..|ConnectRequest(target)|] == ConnectRequest(target)
    ensures HeadOf(ConnectRequest(target) + early, HTTP_HEADER_MAX_LEN)
         == if |ConnectRequest(target)| <= HTTP_HEADER_MAX_LEN then Ok(|ConnectRequest(target)|) else Err(TooLong)
    ensures ParseConnect(ConnectRequest(target)) == Ok(Target(Unbracketed(target.host), target.port))
  {
    Halves(ConnectRequest(target), early);
    RequestIsOneHead(target, early);
    ConnectRoundTrip(target);
  }

  lemma OneHeadThen(line: string, lines: seq<string>, rest: string)
    requires line != [] && Position(line, '\n') == Some(|line| - 1)
    requires forall l :: l in lines ==> ':' in l && '\n' !in l
    ensures Search(line + Render(lines) + rest) == Some(|line + Render(lines)|)
  {
    OneHead(line, lines);
    var stream := line + Render(lines) + rest;
    assert stream[..|line + Render(lines)|] == line + Render(lines);
    SearchPrefix(stream, |line + Render(lines)|);
  }

  // ---- The server on any request ----

  /** What the `http::Uri` library says of a request target: where it points, and its origin form. */
  datatype Uris = Uris(locate: string -> Option<Target>, origin: string -> string)

  datatype Request = Request(target: Target, connect: bool)

  /** The first line of a head, and the fields behind it. */
  function LineOf(head: string): string {
    match Position(head, '\n')
    case None => head
    case Some(newline) => head[..newline + 1]
  }

  /** What `handle_http` makes of a head: CONNECT carries its target, any other method a URI. */
  function ParseRequest(head: string, uris: Uris): Result<Request, ServeError> {
    match ParseConnect(head)
    case Ok(target) => Ok(Request(target, true))
    case Err(NotConnect) =>
      (match uris.locate(Words(LineOf(head))[1])
       case Some(target) => Ok(Request(target, false))
       case None => Err(BadUri))
    case Err(e) => Err(BadRequest(e))
  }

  lemma NotConnectHasWords(head: string)
    requires ParseConnect(head) == Err(NotConnect)
    ensures '\n' in head && |Words(LineOf(head))| >= 2
  {
  }

  predicate IsAbsolute(uri: string) {
    "http://" <= uri || "https://" <= uri
  }

  /** The request line that is forwarded: an absolute URI is brought to origin form. */
  function ForwardedLine(line: string, uris: Uris): string
    requires |Words(line)| >= 2
  {
    var words := Words(line);
    if IsAbsolute(words[1])
    then StartLine(words[0], uris.origin(words[1]), if |words| >= 3 then words[2] else "HTTP/1.1")
    else line
  }

  /** The head that the next server gets of a request other than CONNECT. */
  function ForwardedHead(head: string, uris: Uris): string
    requires ParseConnect(head) == Err(NotConnect)
  {
    NotConnectHasWords(head);
    ForwardedLine(LineOf(head), uris) + FilterHeaders(head[|LineOf(head)|..])
  }

  /** An origin form has no line feed when the URI has none. */
  ghost predicate KeepsLine(uris: Uris) {
    forall uri :: '\n' !in uri ==> '\n' !in uris.origin(uri)
  }

  lemma WordHasNoNewline(line: string, i: nat)
    requires i < |Words(line)|
    ensures '\n' !in Words(line)[i]
  {
    assert IsWord(Words(line)[i]);
    assert IsWhitespace('\n');
  }

  /** Whatever head the client sent, what is forwarded of it is exactly one head. */
  lemma ForwardedOnce(head: string, uris: Uris)
    requires ParseConnect(head) == Err(NotConnect) && KeepsLine(uris)
    ensures Search(ForwardedHead(head, uris)) == Some(|ForwardedHead(head, uris)|)
  {
    NotConnectHasWords(head);
    ForwardedLineEnds(head, uris);
    ForwardedHeadIsOneHead(ForwardedLine(LineOf(head), uris), head[|LineOf(head)|..]);
  }

  lemma ForwardedLineEnds(head: string, uris: Uris)
    requires '\n' in head && |Words(LineOf(head))| >= 2 && KeepsLine(uris)
    ensures var line := ForwardedLine(LineOf(head), uris);
            line != [] && Position(line, '\n') == Some(|line| - 1)
  {
    hide StartLine;
    var line := LineOf(head);
    var words := Words(line);
    if IsAbsolute(words[1]) {
      WordHasNoNewline(line, 0);
      WordHasNoNewline(line, 1);
      if |words| >= 3 {
        WordHasNoNewline(line, 2);
      }
      ConnectLiterals();
      StartLineNewline(words[0], uris.origin(words[1]), if |words| >= 3 then words[2] else "HTTP/1.1");
    } else {
      PositionIsFirst(head, '\n');
      PositionAt(line, '\n', |line| - 1);
    }
  }

  // ---- What is forwarded, in terms of the client's words ----

  /**
   * The first line that is forwarded: for an absolute URI the method, the origin form and the version
   * with single spaces, otherwise the client's own line.
   */
  ghost predicate IsForwardedLine(line: string, words: seq<string>, uris: Uris, forwarded: string)
    requires 2 <= |words|
  {
    if "http://" <= words[1] || "https://" <= words[1] then
      forwarded
        == words[0] + " " + uris.origin(words[1]) + " " + (if 3 <= |words| then words[2] else "HTTP/1.1") + "\r\n"
    else
      forwarded == line
  }

  /** What `handle_http` makes of a first line, its words and the fields behind it. */
  ghost predicate Obeys(line: string, words: seq<string>, fields: string, uris: Uris, a: Accepted) {
    && 2 <= |words|
    && if SameLetters(words[0], "CONNECT") then
         a.request.connect && IsAuthority(words[1], a.request.target) && a.forwarded == ""
       else
         && !a.request.connect && uris.locate(words[1]) == Some(a.request.target)
         && exists first, at ::
              && IsFirstLine(a.forwarded, first) && IsForwardedLine(line, words, uris, first)
              && ListsSurvivors(HeaderLines(a.forwarded[|first|..]), HeaderLines(fields), at)
  }

  ghost predicate Understood(head: string, uris: Uris, a: Accepted) {
    exists line, words ::
      IsFirstLine(head, line) && Spells(line, words) && Obeys(line, words, head[|line|..], uris, a)
  }

  /** Why a complete head is refused. */
  ghost predicate RefusedFor(head: string, uris: Uris, e: ServeError) {
    exists line, words ::
      && IsFirstLine(head, line) && Spells(line, words)
      && match e
         case BadRequest(TooFewWords) => |words| < 2
         case BadRequest(UnclosedBracket) =>
           && 2 <= |words| && SameLetters(words[0], "CONNECT") && words[1] != "" && words[1][0] == '['
           && ']' !in words[1]
         case BadUri => 2 <= |words| && !SameLetters(words[0], "CONNECT") && uris.locate(words[1]).None?
         case _ => false
  }

  lemma StartLineIs(a: string, b: string, c: string)
    ensures StartLine(a, b, c) == a + " " + b + " " + c + "\r\n"
  {
    Associate(b + [' '], c, ['\r', '\n']);
    Associate(a + [' '], b, [' ']);
    Associate(a + [' '], b + [' '], c);
    Associate(a + [' '], b + [' '] + c, ['\r', '\n']);
  }

  lemma FirstLineOf(head: string)
    requires '\n' in head
    ensures IsFirstLine(head, LineOf(head))
  {
    PositionIsFirst(head, '\n');
  }

  lemma ForwardedLineMeans(line: string, words: seq<string>, uris: Uris)
    requires Spells(line, words) && 2 <= |words|
    ensures |Words(line)| >= 2 && IsForwardedLine(line, words, uris, ForwardedLine(line, uris))
  {
    hide Words, Spells, StartLine;
    WordsIff(line, words);
    StartLineIs(words[0], uris.origin(words[1]), if |words| >= 3 then words[2] else "HTTP/1.1");
  }

  lemma IsFirst(line: string, rest: string)
    requires line != "" && Position(line, '\n') == Some(|line| - 1)
    ensures IsFirstLine(line + rest, line) && (line + rest)[|line|..] == rest
  {
    PositionIsFirst(line, '\n');
  }

  /** What is forwarded is the client's request, line and fields. */
  lemma ForwardedMeans(head: string, line: string, words: seq<string>, uris: Uris)
    requires IsFirstLine(head, line) && Spells(line, words) && KeepsLine(uris)
    requires ParseConnect(head) == Err(NotConnect)
    ensures 2 <= |words|
    ensures var f := ForwardedHead(head, uris);
            exists first, at ::
              && IsFirstLine(f, first) && IsForwardedLine(line, words, uris, first)
              && ListsSurvivors(HeaderLines(f[|first|..]), HeaderLines(head[|line|..]), at)
  {
    hide ParseConnect, ForwardedLine, FilterHeaders, HeaderLines, ListsSurvivors, IsForwardedLine, IsFirstLine;
    hide Position, Words, Spells;
    NotConnectHasWords(head);
    FirstLineAt(head, line);
    WordsIff(line, words);
    assert LineOf(head) == line;
    ForwardedLineMeans(line, words, uris);
    ForwardedLineEnds(head, uris);
    var first, fields := ForwardedLine(line, uris), head[|line|..];
    IsFirst(first, FilterHeaders(fields));
    var at := FilterKeepsSurvivors(fields);
    var f := ForwardedHead(head, uris);
    assert f == first + FilterHeaders(fields);
    assert IsFirstLine(f, first) && ListsSurvivors(HeaderLines(f[|first|..]), HeaderLines(fields), at);
  }

  lemma RequestMeans(head: string, line: string, words: seq<string>, uris: Uris)
    requires IsFirstLine(head, line) && Spells(line, words)
    ensures match ParseRequest(head, uris)
            case Err(e) => RefusedFor(head, uris, e)
            case Ok(Request(target, connect)) =>
              && 2 <= |words| && (connect <==> SameLetters(words[0], "CONNECT"))
              && (if connect then IsAuthority(words[1], target) else uris.locate(words[1]) == Some(target))
              && (!connect ==> ParseConnect(head) == Err(NotConnect))
  {
    hide ParseConnect, ParseAuthority, Words, Spells, IsFirstLine, Position, SameLetters, IsAuthority;
    ConnectMeans(head, line, words);
    FirstLineAt(head, line);
    WordsIff(line, words);
    assert LineOf(head) == line;
    if |words| >= 2 && ParseAuthority(words[1]).Ok? {
      AuthorityIff(words[1], ParseAuthority(words[1]).value);
    } else if |words| >= 2 {
      AuthorityIff(words[1], Target("", 0));
    }
  }

  /** Every outcome of a complete head in terms of its words. */
  lemma HeadMeans(head: string, uris: Uris)
    requires '\n' in head && KeepsLine(uris)
    ensures match ParseRequest(head, uris)
            case Err(e) => RefusedFor(head, uris, e)
            case Ok(request) =>
              && (request.connect ==> forall leftover :: Understood(head, uris, Accepted(request, "", leftover)))
              && (!request.connect ==>
                   && ParseConnect(head) == Err(NotConnect)
                   && forall leftover ::
                        Understood(head, uris, Accepted(request, ForwardedHead(head, uris), leftover)))
  {
    hide ParseConnect, ParseRequest, IsFirstLine, Spells, ForwardedHead, IsAuthority, SameLetters;
    var line, words := LineOf(head), Words(LineOf(head));
    FirstLineOf(head);
    WordsIff(line, words);
    RequestMeans(head, line, words, uris);
    if ParseRequest(head, uris).Ok? && !ParseRequest(head, uris).value.connect {
      ForwardedMeans(head, line, words, uris);
    }
  }

  datatype Accepted = Accepted(request: Request, forwarded: string, leftover: string)

  datatype ServeError = BadHead(head: HeadError) | BadRequest(parse: ParseError) | BadUri | Unreachable

  /** What `handle_http` owes for the stream it was given. */
  ghost predicate Served(stream: string, uris: Uris, dial: Target -> bool,
                         r: Result<Accepted, ServeError>, reply: string, unread: string) {
    match HeadOf(stream, HTTP_HEADER_MAX_LEN)
    case Err(e) => r == Err(BadHead(e)) && reply == ""
    case Ok(n) =>
      n <= |stream| &&
      match ParseRequest(stream[..n], uris)
      case Err(e) => r == Err(e) && reply == ""
      case Ok(request) =>
        if dial(request.target) then
          && r.Ok? && r.value.request == request && stream[..n] + r.value.leftover + unread == stream
          && (if request.connect then reply == ESTABLISHED && r.value.forwarded == ""
              else reply == "" && ParseConnect(stream[..n]) == Err(NotConnect)
                   && r.value.forwarded == ForwardedHead(stream[..n], uris))
        else
          r == Err(Unreachable) && reply == BAD_GATEWAY
  }

  /** The same in terms of the words of the first line and of the lines behind it. */
  ghost predicate Explained(stream: string, uris: Uris, r: Result<Accepted, ServeError>) {
    match HeadOf(stream, HTTP_HEADER_MAX_LEN)
    case Err(_) => r.Err? && r.error.BadHead?
    case Ok(n) =>
      n <= |stream| &&
      match r
      case Ok(a) => Understood(stream[..n], uris, a)
      case Err(Unreachable) => true
      case Err(e) => RefusedFor(stream[..n], uris, e)
  }

  lemma HeadHasLine(stream: string, n: nat)
    requires HeadOf(stream, HTTP_HEADER_MAX_LEN) == Ok(n)
    ensures n <= |stream| && '\n' in stream[..n]
  {
    HeadOfMeaning(stream, HTTP_HEADER_MAX_LEN);
    assert stream[..n][n - 1] == '\n';
  }

  /**
   * `handle_http`: `dial` says which targets can be reached, `reply` is what is written back and
   * `forwarded` what is written to the target.
   */
  method HandleHttp(source: ByteSource<char>, firstByte: char, uris: Uris, dial: Target -> bool)
    returns (r: Result<Accepted, ServeError>, reply: string)
    requires KeepsLine(uris)
    modifies source
    ensures Served([firstByte] + old(source.unread), uris, dial, r, reply, source.unread)
    ensures Explained([firstByte] + old(source.unread), uris, r)
    ensures r.Ok? && !r.value.request.connect ==> Search(r.value.forwarded) == Some(|r.value.forwarded|)
  {
    hide HeadOf, ParseConnect, Search, KeepsLine, ParseRequest, Understood, RefusedFor, ForwardedHead;
    ghost var stream := [firstByte] + source.unread;
    ghost var lens, steps;
    var read;
    read, lens, steps := ReadHttpHeaders(source, firstByte);
    if read.Err? {
      return Err(BadHead(read.error)), "";
    }
    var head := read.value.head;
    assert head == stream[..|head|];
    HeadHasLine(stream, |head|);
    HeadMeans(head, uris);
    var parsed := ParseRequest(head, uris);
    if parsed.Err? {
      return Err(parsed.error), "";
    }
    var request := parsed.value;
    if !dial(request.target) {
      return Err(Unreachable), BAD_GATEWAY;
    }
    if request.connect {
      return Ok(Accepted(request, "", read.value.leftover)), ESTABLISHED;
    }
    ForwardedOnce(head, uris);
    return Ok(Accepted(request, ForwardedHead(head, uris), read.value.leftover)), "";
  }

  datatype ClientError = BadReply(head: HeadError) | InvalidReply | Refused(status: nat)

  /** The first line of `text`, as `str::lines` yields it. */
  function FirstLine(text: string): string {
    match Position(text, '\n')
    case None => text
    case Some(newline) => StripCr(text[..newline])
  }

  function StatusCode(line: string): port {
    var words := Words(line);
    if |words| < 2 then 0
    else match ParseU16(words[1])
      case Some(code) => code
      case None => 0
  }

  function CheckReply(head: string): Option<ClientError> {
    var line := FirstLine(head);
    if |line| < 12 || line[..5] != "HTTP/" then Some(InvalidReply)
    else if StatusCode(line) == 200 then None
    else Some(Refused(StatusCode(line)))
  }

  /** `http_connect` after the request is written: the bytes past the reply's head go to the relay. */
  method AwaitReply(source: ByteSource<char>) returns (r: Result<string, ClientError>)
    modifies source
    ensures var stream := old(source.unread);
            match HeadOf(stream, CONNECT_RESPONSE_MAX_LEN)
            case Err(e) => r == Err(BadReply(e))
            case Ok(n) =>
              n <= |stream| &&
              match CheckReply(stream[..n])
              case Some(e) => r == Err(e)
              case None => r.Ok? && stream[..n] + r.value + source.unread == stream
  {
    ghost var stream := source.unread;
    ghost var lens, steps;
    var read;
    read, lens, steps := ReadConnectResponse(source);
    match read
    case Err(e) =>
      return Err(BadReply(e));
    case Ok(head) =>
      assert head.head == stream[..|head.head|];
      match CheckReply(head.head) {
        case Some(e) => return Err(e);
        case None => return Ok(head.leftover);
      }
  }

  lemma StatusLine(a: string, b: string, c: string, fields: string)
    requires '\n' !in a && '\n' !in b && '\n' !in c
    ensures FirstLine(StartLine(a, b, c) + fields) == a + [' '] + (b + [' '] + c)
  {
    var line, text := StartLine(a, b, c), a + [' '] + (b + [' '] + c);
    StartLineNewline(a, b, c);
    StartLineText(a, b, c);
    hide StartLine, Position;
    PositionPrefix(line, '\n', fields);
    SliceOfPrefix(line, fields, 0, |line| - 1);
    assert (line + fields)[..|line| - 1] == line[..|line| - 1];
    assert (text + ['\r'])[..|text|] == text;
  }

  lemma StartLineText(a: string, b: string, c: string)
    ensures var line, text := StartLine(a, b, c), a + [' '] + (b + [' '] + c);
            '\n' in line && |line| == |text| + 2 && line[..|line| - 1] == text + ['\r']
  {
    var line, text := StartLine(a, b, c), a + [' '] + (b + [' '] + c);
    Associate(b + [' '], c, ['\r', '\n']);
    Associate(a + [' '], b + [' '] + c, ['\r', '\n']);
    assert line == text + ['\r', '\n'];
    assert line[|line| - 1] == '\n';
  }

  /** The request, octet for octet. */
  lemma RequestBytes(target: Target)
    ensures var host := if ':' in target.host && target.host[0] != '[' then "[" + target.host + "]" else target.host;
            var authority := host + ":" + Decimal(target.port);
            ConnectRequest(target)
              == "CONNECT" + " " + authority + " " + "HTTP/1.1" + "\r\n" + (("Host: " + authority) + "\r\n" + "\r\n")
  {
    hide Render, Decimal, StartLine;
    OneFieldHead("CONNECT", Authority(target), "HTTP/1.1", HostField(target));
  }

  lemma OneFieldHead(a: string, b: string, c: string, field: string)
    ensures StartLine(a, b, c) + Render([field]) == a + " " + b + " " + c + "\r\n" + (field + "\r\n" + "\r\n")
  {
    hide Render;
    StartLineIs(a, b, c);
    FieldSection([field]);
    NoSection([field][1..]);
  }

  lemma FieldSection(fields: seq<string>)
    requires fields != []
    ensures Render(fields) == fields[0] + "\r\n" + Render(fields[1..])
  {
    RenderFirst(fields);
  }

  lemma NoSection(fields: seq<string>)
    requires fields == []
    ensures Render(fields) == "\r\n"
  {
  }

  /** The two replies, octet for octet. */
  lemma ReplyBytes()
    ensures ESTABLISHED == "HTTP/1.1" + " " + "200" + " " + "Connection Established" + "\r\n" + "\r\n"
    ensures BAD_GATEWAY
         == "HTTP/1.1" + " " + "502" + " " + "Bad Gateway" + "\r\n"
            + ("Content-Length: 0" + "\r\n" + ("Connection: close" + "\r\n" + "\r\n"))
  {
    hide Render;
    StartLineIs("HTTP/1.1", "200", "Connection Established");
    StartLineIs("HTTP/1.1", "502", "Bad Gateway");
    NoSection([]);
    var fields := [CONTENT_LENGTH, CLOSE];
    FieldSection(fields);
    FieldSection(fields[1..]);
    NoSection(fields[1..][1..]);
  }

  /** The status that the words of a status line name; 0 when they name none. */
  ghost predicate NamesStatus(words: seq<string>, status: port) {
    if |words| < 2 then status == 0
    else Writes(words[1], status) || (status == 0 && forall q: port :: !Writes(words[1], q))
  }

  lemma StatusCodeIff(line: string, words: seq<string>, status: port)
    requires Spells(line, words)
    ensures NamesStatus(words, status) <==> StatusCode(line) == status
  {
    hide ParseU16, Writes, Words, Spells;
    WordsIff(line, words);
    if |words| >= 2 {
      forall q: port
        ensures ParseU16(words[1]) == Some(q) <==> Writes(words[1], q)
      {
        ParseU16Iff(words[1], q);
      }
    }
  }

  /** Any reply is judged by its first line, whatever ends it: its length, its beginning, and its second word. */
  lemma ReplyMeans(text: string, line: string, rest: string, words: seq<string>)
    requires IsLine(text, line) && Spells(line, words)
    ensures CheckReply(text + rest) == Some(InvalidReply) <==> |line| < 12 || !("HTTP/" <= line)
    ensures CheckReply(text + rest) == None <==> 12 <= |line| && "HTTP/" <= line && NamesStatus(words, 200)
    ensures forall status: nat ::
              CheckReply(text + rest) == Some(Refused(status)) <==>
                && 12 <= |line| && "HTTP/" <= line && status != 200 && status < 0x1_0000
                && NamesStatus(words, status)
  {
    hide StatusCode, Spells, NamesStatus, Position, FirstLine;
    FirstLineIs(text, line, rest);
    forall status: port
      ensures NamesStatus(words, status) <==> StatusCode(line) == status
    {
      StatusCodeIff(line, words, status);
    }
  }

  lemma FirstLineIs(text: string, line: string, rest: string)
    requires IsLine(text, line)
    ensures FirstLine(text + rest) == line
  {
    var first := if text == line + "\r\n" then line + "\r" else line;
    assert text + rest == first + ['\n'] + rest;
    PositionOf(first, '\n', rest);
    assert (text + rest)[..|first|] == first;
    assert StripCr(first) == line;
  }

  /** A reply is checked by the second word of its status line. */
  lemma CheckedReply(code: string, reason: string, fields: string)
    requires |code| == 3 && !HasWhitespace(code) && '\n' !in reason
    requires ParseU16(code).Some?
    ensures CheckReply(StartLine("HTTP/1.1", code, reason) + fields)
         == if ParseU16(code) == Some(200) then None else Some(Refused(ParseU16(code).value))
  {
    var version := "HTTP/1.1";
    StartLineLiterals();
    StatusLine(version, code, reason, fields);
    assert (version + [' '] + (code + [' '] + reason))[..5] == "HTTP/";
    WordsFirst(version, ' ', code + [' '] + reason);
    WordsFirst(code, ' ', reason);
  }

  lemma StartLineLiterals()
    ensures !HasWhitespace("HTTP/1.1") && !HasWhitespace("200") && !HasWhitespace("502")
  {
  }

  lemma FieldLiterals()
    ensures ':' in CONTENT_LENGTH && '\n' !in CONTENT_LENGTH
    ensures ':' in CLOSE && '\n' !in CLOSE
  {
    assert CONTENT_LENGTH[14] == ':' && CLOSE[10] == ':';
  }

  /** A reply with a numeric code is one head, and the client judges it by that code. */
  lemma ReplyRead(code: string, reason: string, lines: seq<string>, rest: string)
    requires |code| == 3 && !HasWhitespace(code) && ParseU16(code).Some? && '\n' !in reason
    requires forall l :: l in lines ==> ':' in l && '\n' !in l
    ensures var reply := StartLine("HTTP/1.1", code, reason) + Render(lines);
            && Search(reply + rest) == Some(|reply|)
            && CheckReply(reply) == if ParseU16(code) == Some(200) then None else Some(Refused(ParseU16(code).value))
  {
    StartLineLiterals();
    CheckedReply(code, reason, Render(lines));
    StartLineNewline("HTTP/1.1", code, reason);
    OneHeadThen(StartLine("HTTP/1.1", code, reason), lines, rest);
  }

  /** The client accepts the success reply and takes exactly the target's bytes behind it. */
  lemma EstablishedAccepted(banner: string)
    ensures HeadOf(ESTABLISHED + banner, CONNECT_RESPONSE_MAX_LEN) == Ok(|ESTABLISHED|)
    ensures CheckReply(ESTABLISHED) == None
  {
    CodeValues();
    StartLineLiterals();
    ReplyRead("200", "Connection Established", [], banner);
  }

  lemma BadGatewayLength()
    ensures |BAD_GATEWAY| == 66
  {
    var fields := [CONTENT_LENGTH, CLOSE];
    RenderFirst(fields);
    RenderFirst(fields[1..]);
    assert |Render(fields[1..][1..])| == 2;
  }

  /** The client reads the failure reply as status 502. */
  lemma BadGatewayRefused(rest: string)
    ensures HeadOf(BAD_GATEWAY + rest, CONNECT_RESPONSE_MAX_LEN) == Ok(|BAD_GATEWAY|)
    ensures CheckReply(BAD_GATEWAY) == Some(Refused(502))
  {
    CodeValues();
    StartLineLiterals();
    FieldLiterals();
    BadGatewayLength();
    ReplyRead("502", "Bad Gateway", [CONTENT_LENGTH, CLOSE], rest);
  }

  /** The client's reading of a reply that is one head followed by the target's bytes. */
  method ReadReply(reply: string, banner: string, verdict: Option<ClientError>)
      returns (r: Result<string, ClientError>, unread: string)
    requires HeadOf(reply + banner, CONNECT_RESPONSE_MAX_LEN) == Ok(|reply|) && CheckReply(reply) == verdict
    ensures match verdict
            case None => r.Ok? && r.value + unread == banner
            case Some(e) => r == Err(e)
  {
    hide HeadOf, CheckReply;
    var source := new ByteSource(reply + banner);
    Halves(reply, banner);
    r := AwaitReply(source);
    unread := source.unread;
    if r.Ok? {
      Associate(reply, r.value, unread);
      Halves(reply, r.value + unread);
    }
  }

  /**
   * The whole exchange between two chained forwarders, for any fragmentation in either direction:
   * the server dials exactly the client's target, what the client sent early and what the target
   * said first come out untouched, and a target that cannot be reached shows as status 502.
   */
  method Exchange(target: Target, early: string, banner: string, uris: Uris, dial: Target -> bool)
    returns (served: Result<Accepted, ServeError>, answer: Result<string, ClientError>, upUnread: string,
        downUnread: string)
    requires Transmissible(target.host) && IsAscii(target.host) && |ConnectRequest(target)| <= HTTP_HEADER_MAX_LEN
    requires KeepsLine(uris)
    ensures var seen := Target(Unbracketed(target.host), target.port);
            if dial(seen) then
              && served.Ok? && served.value.request == Request(seen, true) && served.value.leftover + upUnread == early
              && answer.Ok? && answer.value + downUnread == banner
            else
              served == Err(Unreachable) && answer == Err(Refused(502))
  {
    hide HeadOf, CheckReply, ParseConnect, Transmissible, ConnectRequest, Unbracketed, KeepsLine;
    var request := ConnectRequest(target) + early;
    ChainedConnect(target, early);
    assert [request[0]] + request[1..] == request;
    var up := new ByteSource(request[1..]);
    var reply;
    served, reply := HandleHttp(up, request[0], uris, dial);
    upUnread := up.unread;
    if served.Ok? {
      Associate(ConnectRequest(target), served.value.leftover, upUnread);
      Halves(ConnectRequest(target), served.value.leftover + upUnread);
      Halves(ConnectRequest(target), early);
      EstablishedAccepted(banner);
      answer, downUnread := ReadReply(reply, banner, None);
    } else {
      BadGatewayRefused(banner);
      answer, downUnread := ReadReply(reply, banner, Some(Refused(502)));
    }
  }
}
