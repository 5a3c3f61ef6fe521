/**
 * The text functions of the standard library that src/proxy_server.rs and src/proxy_client.rs use on
 * HTTP lines: `split_whitespace`, `to_uppercase`, `rsplit_once`, printing and parsing of a `u16`.
 */
module HttpText {
  import opened Basics

  // ---- Decimal numbers ----

  function Decimal(n: nat): (s: string)
    ensures |s| > 0 && AllDigits(s) && (s[0] == '0' ==> n == 0)
  {
    var digit := [('0' as int + n % 10) as char];
    if n < 10 then digit else Decimal(n / 10) + digit
  }

  predicate AllDigits(s: string) {
    forall i :: 0 <= i < |s| ==> '0' <= s[i] <= '9'
  }

  function DigitsValue(s: string): nat
    requires AllDigits(s)
  {
    if s == [] then 0 else 10 * DigitsValue(s[..|s| - 1]) + (s[|s| - 1] as int - '0' as int)
  }

  /** `str::parse::<u16>`: an optional plus sign, then at least one digit, at most 65535. */
  function ParseU16(s: string): Option<port> {
    var digits := if s != [] && s[0] == '+' then s[1..] else s;
    if digits != [] && AllDigits(digits) && DigitsValue(digits) < 0x1_0000 then Some(DigitsValue(digits)) else None
  }

  lemma {:induction false} DecimalValue(n: nat)
    ensures DigitsValue(Decimal(n)) == n
  {
    if 10 <= n {
      DecimalValue(n / 10);
      assert Decimal(n)[..|Decimal(n)| - 1] == Decimal(n / 10);
    } else {
      assert Decimal(n)[..0] == [];
    }
  }

  lemma ParsePrintedPort(p: port)
    ensures ParseU16(Decimal(p)) == Some(p)
  {
    DecimalValue(p);
  }

  /** `n` without its last `k` decimal digits. */
  ghost function Shifted(n: nat, k: nat): nat {
    if k == 0 then n else Shifted(n / 10, k - 1)
  }

  /** The octets of a printed number: its decimal digits, as many as it has. */
  lemma {:induction false} DecimalDigits(n: nat)
    ensures var s := Decimal(n);
            && (forall k :: 0 <= k < |s| ==> s[|s| - 1 - k] as int == 48 + Shifted(n, k) % 10)
            && Shifted(n, |s|) == 0 && (1 < |s| ==> 0 < Shifted(n, |s| - 1))
  {
    DecimalLast(n);
    if n < 10 {
      assert Shifted(n, 1) == Shifted(0, 0);
    } else {
      DecimalDigits(n / 10);
      var s, t := Decimal(n), Decimal(n / 10);
      forall k | 0 <= k < |s|
        ensures s[|s| - 1 - k] as int == 48 + Shifted(n, k) % 10
      {
        if k > 0 {
          assert s[|s| - 1 - k] == t[|t| - 1 - (k - 1)];
        }
      }
    }
  }

  lemma DecimalLast(n: nat)
    ensures Decimal(n) == (if n < 10 then [] else Decimal(n / 10)) + [(48 + n % 10) as char]
  {
  }

  predicate AllZeros(s: string) {
    forall k :: 0 <= k < |s| ==> s[k] == '0'
  }

  /** `s` writes `p`: an optional plus sign, any zeros, and the digits of `p`. */
  ghost predicate Writes(s: string, p: port) {
    exists plus, zeros :: (plus == "" || plus == "+") && AllZeros(zeros) && s == plus + zeros + Decimal(p)
  }

  lemma {:induction false} ZerosInFront(zeros: string, s: string)
    requires AllZeros(zeros) && AllDigits(s)
    ensures AllDigits(zeros + s) && DigitsValue(zeros + s) == DigitsValue(s)
    decreases |zeros| + |s|
  {
    var all := zeros + s;
    if s != [] {
      ZerosInFront(zeros, s[..|s| - 1]);
      assert all[..|all| - 1] == zeros + s[..|s| - 1];
    } else if zeros != [] {
      ZerosInFront(zeros[..|zeros| - 1], []);
      assert all[..|all| - 1] == zeros[..|zeros| - 1] + [];
    }
  }

  lemma {:induction false} DigitsWritten(s: string) returns (zeros: string)
    requires s != [] && AllDigits(s)
    ensures AllZeros(zeros) && s == zeros + Decimal(DigitsValue(s))
  {
    hide Decimal;
    var n := |s| - 1;
    LastDigit(s);
    DecimalLast(DigitsValue(s));
    if n == 0 {
      zeros := [];
    } else {
      var before := DigitsWritten(s[..n]);
      var v := DigitsValue(s[..n]);
      DecimalLast(v);
      zeros := if v == 0 then before + ['0'] else before;
      Associate(before, Decimal(v), [s[n]]);
    }
  }

  lemma LastDigit(s: string)
    requires s != [] && AllDigits(s)
    ensures var t, d := s[..|s| - 1], s[|s| - 1] as int - 48;
            && AllDigits(t) && 0 <= d < 10 && s == t + [(48 + d) as char] && DigitsValue(s) == 10 * DigitsValue(t) + d
    ensures |s| == 1 ==> DigitsValue(s[..0]) == 0
  {
  }

  /** What is parsed as `p` is exactly what writes `p`. */
  lemma ParseU16Iff(s: string, p: port)
    ensures ParseU16(s) == Some(p) <==> Writes(s, p)
  {
    hide Decimal, DigitsValue;
    if Writes(s, p) {
      var plus, zeros :| (plus == "" || plus == "+") && AllZeros(zeros) && s == plus + zeros + Decimal(p);
      DecimalValue(p);
      ZerosInFront(zeros, Decimal(p));
      SignIs(plus, zeros + Decimal(p));
      Associate(plus, zeros, Decimal(p));
    }
    if ParseU16(s) == Some(p) {
      var plus, digits := SignOf(s);
      var zeros := DigitsWritten(digits);
      Associate(plus, zeros, Decimal(p));
    }
  }

  lemma SignOf(s: string) returns (plus: string, digits: string)
    requires ParseU16(s).Some?
    ensures (plus == "" || plus == "+") && s == plus + digits
    ensures digits != [] && AllDigits(digits) && ParseU16(s) == Some(DigitsValue(digits))
  {
    plus := if s[0] == '+' then "+" else "";
    digits := s[|plus|..];
  }

  lemma SignIs(plus: string, digits: string)
    requires (plus == "" || plus == "+") && digits != [] && AllDigits(digits)
    ensures ParseU16(plus + digits) == if DigitsValue(digits) < 0x1_0000 then Some(DigitsValue(digits)) else None
  {
    hide DigitsValue;
    if plus == "" {
      assert plus + digits == digits;
    } else {
      assert (plus + digits)[1..] == digits;
    }
  }

  lemma CodeValues()
    ensures ParseU16("200") == Some(200) && ParseU16("502") == Some(502)
  {
    assert "200"[..2] == "20" && "20"[..1] == "2" && "2"[..0] == "";
    assert "502"[..2] == "50" && "50"[..1] == "5" && "5"[..0] == "";
  }

  // ---- Words ----

  /** `char::is_whitespace`, the Unicode property White_Space, as `split_whitespace` uses it. */
  predicate IsWhitespace(c: char) {
    || '\t' <= c <= '\r' || c == ' ' || c == '\U{85}' || c == '\U{A0}' || c == '\U{1680}'
    || '\U{2000}' <= c <= '\U{200A}' || c == '\U{2028}' || c == '\U{2029}' || c == '\U{202F}'
    || c == '\U{205F}' || c == '\U{3000}'
  }

  function WordLength(s: string): (n: nat)
    ensures n <= |s|
    ensures forall i :: 0 <= i < n ==> !IsWhitespace(s[i])
    ensures n < |s| ==> IsWhitespace(s[n])
  {
    if s == [] || IsWhitespace(s[0]) then 0 else 1 + WordLength(s[1..])
  }

  predicate IsWord(w: string) {
    w != [] && forall i :: 0 <= i < |w| ==> !IsWhitespace(w[i])
  }

  /** `split_whitespace`. */
  function Words(s: string): (r: seq<string>)
    ensures forall k :: 0 <= k < |r| ==> IsWord(r[k])
    decreases |s|
  {
    if s == [] then []
    else if IsWhitespace(s[0]) then Words(s[1..])
    else [s[..WordLength(s)]] + Words(s[WordLength(s)..])
  }

  lemma WordsFirst(word: string, c: char, rest: string)
    requires word != [] && IsWhitespace(c)
    requires forall d :: d in word ==> !IsWhitespace(d)
    ensures Words(word + [c] + rest) == [word] + Words(rest)
  {
    var s := word + [c] + rest;
    assert forall i :: 0 <= i < |word| ==> s[i] == word[i] && word[i] in word;
    assert s[|word|] == c;
    var n := WordLength(s);
    assert n == |word|;
    assert s[..n] == word && s[n..] == [c] + rest && s[n..][1..] == rest;
  }

  /** The code points with the Unicode property White_Space. */
  const WHITE_SPACE: set<int> := {
    0x9, 0xA, 0xB, 0xC, 0xD, 0x20, 0x85, 0xA0, 0x1680, 0x2000, 0x2001, 0x2002, 0x2003, 0x2004, 0x2005, 0x2006,
    0x2007, 0x2008, 0x2009, 0x200A, 0x2028, 0x2029, 0x202F, 0x205F, 0x3000
  }

  lemma WhitespaceIff(c: char)
    ensures IsWhitespace(c) <==> c as int in WHITE_SPACE
  {
  }

  predicate IsGap(s: string) {
    forall k :: 0 <= k < |s| ==> s[k] as int in WHITE_SPACE
  }

  /** No character of `s` is white space. */
  predicate IsSolid(s: string) {
    forall k :: 0 <= k < |s| ==> s[k] as int !in WHITE_SPACE
  }

  /** The words with a gap before each and one behind the last. */
  ghost function Laid(gaps: seq<string>, words: seq<string>): string
    requires |gaps| == |words| + 1
  {
    if words == [] then gaps[0] else gaps[0] + words[0] + Laid(gaps[1..], words[1..])
  }

  ghost predicate IsLayout(s: string, gaps: seq<string>, words: seq<string>) {
    && |gaps| == |words| + 1 && s == Laid(gaps, words)
    && (forall k :: 0 <= k < |words| ==> words[k] != "" && IsSolid(words[k]))
    && (forall k :: 0 <= k < |gaps| ==> IsGap(gaps[k]))
    && forall k :: 0 < k < |words| ==> gaps[k] != ""
  }

  /** `s` is `words` with white space between them, and perhaps around them. */
  ghost predicate Spells(s: string, words: seq<string>) {
    exists gaps :: IsLayout(s, gaps, words)
  }

  lemma {:induction false} SkipGap(gap: string, rest: string)
    requires IsGap(gap)
    ensures Words(gap + rest) == Words(rest)
  {
    if gap == "" {
      assert gap + rest == rest;
    } else {
      WhitespaceIff(gap[0]);
      assert (gap + rest)[1..] == gap[1..] + rest;
      SkipGap(gap[1..], rest);
    }
  }

  lemma WordEnds(word: string, rest: string)
    requires word != "" && IsSolid(word) && (rest == "" || rest[0] as int in WHITE_SPACE)
    ensures Words(word + rest) == [word] + Words(rest)
  {
    var s := word + rest;
    forall i | 0 <= i < |word|
      ensures !IsWhitespace(s[i])
    {
      WhitespaceIff(word[i]);
    }
    if rest != "" {
      WhitespaceIff(rest[0]);
      assert s[|word|] == rest[0];
    }
    assert WordLength(s) == |word|;
    assert s[..|word|] == word && s[|word|..] == rest;
  }

  lemma {:induction false} LaidWords(s: string, gaps: seq<string>, words: seq<string>)
    requires IsLayout(s, gaps, words)
    ensures Words(s) == words
    decreases |words|
  {
    if words == [] {
      assert gaps[0] == gaps[0] + "";
      SkipGap(gaps[0], "");
    } else {
      var rest := Laid(gaps[1..], words[1..]);
      Associate(gaps[0], words[0], rest);
      SkipGap(gaps[0], words[0] + rest);
      GapFirst(gaps[1..], words[1..]);
      WordEnds(words[0], rest);
      LaidWords(rest, gaps[1..], words[1..]);
    }
  }

  lemma GapFirst(gaps: seq<string>, words: seq<string>)
    requires |gaps| == |words| + 1 && IsGap(gaps[0]) && (words != [] ==> gaps[0] != "")
    ensures Laid(gaps, words) == "" || Laid(gaps, words)[0] as int in WHITE_SPACE
  {
  }

  lemma {:induction false} WordsLaid(s: string) returns (gap: string, gaps: seq<string>)
    ensures IsLayout(s, [gap] + gaps, Words(s))
    ensures s != "" && s[0] as int in WHITE_SPACE ==> gap != ""
    decreases |s|
  {
    hide IsLayout, Words, WordLength, IsWhitespace;
    NoWords();
    if s == "" {
      gap, gaps := "", [];
      assert [""] + [] == [""];
    } else {
      WhitespaceIff(s[0]);
      if IsWhitespace(s[0]) {
        gap, gaps := WordsLaid(s[1..]);
        SkipOne(s);
        WiderGap(s[0], s[1..], gap, gaps, Words(s));
        gap := [s[0]] + gap;
        assert s == [s[0]] + s[1..];
      } else {
        var n := WordLength(s);
        FirstWord(s, n);
        var g, gs := WordsLaid(s[n..]);
        gap, gaps := "", [g] + gs;
        OneMoreWord(s[..n], s[n..], gaps, Words(s[n..]));
        assert s == s[..n] + s[n..];
      }
    }
  }

  lemma SkipOne(s: string)
    requires s != "" && IsWhitespace(s[0])
    ensures Words(s) == Words(s[1..])
  {
  }

  lemma NoWords()
    ensures Words("") == [] && IsLayout("", [""], Words(""))
  {
  }

  lemma WiderGap(c: char, s: string, gap: string, gaps: seq<string>, words: seq<string>)
    requires IsLayout(s, [gap] + gaps, words) && c as int in WHITE_SPACE
    ensures IsLayout([c] + s, [[c] + gap] + gaps, words)
  {
    var narrow, wider := [gap] + gaps, [[c] + gap] + gaps;
    assert wider[1..] == gaps == narrow[1..];
    if words != [] {
      Associate([c], gap, words[0]);
      Associate([c], gap + words[0], Laid(gaps, words[1..]));
    }
  }

  lemma FirstWord(s: string, n: nat)
    requires s != "" && !IsWhitespace(s[0]) && n == WordLength(s)
    ensures 0 < n && IsSolid(s[..n]) && (n < |s| ==> s[n] as int in WHITE_SPACE)
    ensures Words(s) == [s[..n]] + Words(s[n..])
  {
    forall k | 0 <= k < n
      ensures s[..n][k] as int !in WHITE_SPACE
    {
      WhitespaceIff(s[k]);
    }
    if n < |s| {
      WhitespaceIff(s[n]);
    }
  }

  lemma OneMoreWord(word: string, rest: string, gaps: seq<string>, words: seq<string>)
    requires word != "" && IsSolid(word) && IsLayout(rest, gaps, words) && (words != [] ==> gaps[0] != "")
    ensures IsLayout(word + rest, [""] + gaps, [word] + words)
  {
    var longer, all := [""] + gaps, [word] + words;
    assert all[1..] == words && longer[1..] == gaps;
    assert "" + word + rest == word + rest;
  }

  /** Splitting at white space finds exactly the words that spell the text. */
  lemma WordsIff(s: string, words: seq<string>)
    ensures Spells(s, words) <==> words == Words(s)
  {
    var gap, gaps := WordsLaid(s);
    if Spells(s, words) {
      var other :| IsLayout(s, other, words);
      LaidWords(s, other, words);
    }
  }

  // ---- Letters ----

  function ToUpper(c: char): char {
    if 'a' <= c <= 'z' then (c as int - 32) as char else c
  }

  function UpperCase(s: string): string {
    seq(|s|, i requires 0 <= i < |s| => ToUpper(s[i]))
  }

  /** Upper case forgets exactly the case of ASCII letters. */
  lemma UpperCaseIs(s: string, upper: string)
    requires forall i :: 0 <= i < |upper| ==> !('a' <= upper[i] <= 'z')
    ensures UpperCase(s) == upper <==> SameLetters(s, upper)
  {
    assert forall i :: 0 <= i < |s| ==> UpperCase(s)[i] == ToUpper(s[i]);
  }

  /** The last occurrence of `x`, as `rsplit_once` finds it. */
  function LastPosition(s: string, x: char): (r: Option<nat>)
    ensures r.None? <==> x !in s
    ensures r.Some? ==> r.value < |s| && s[r.value] == x && forall k :: r.value < k < |s| ==> s[k] != x
  {
    if s == [] then None
    else match LastPosition(s[1..], x)
      case Some(i) => Some(i + 1)
      case None => if s[0] == x then Some(0) else None
  }

  lemma {:induction false} LastPositionOf(before: string, x: char, after: string)
    requires x !in after
    ensures LastPosition(before + ([x] + after), x) == Some(|before|)
  {
    var s := before + ([x] + after);
    if before == [] {
      assert s[1..] == after;
    } else {
      assert s[1..] == before[1..] + ([x] + after);
      LastPositionOf(before[1..], x, after);
    }
  }

  predicate HasWhitespace(s: string) {
    exists c :: c in s && IsWhitespace(c)
  }
}
