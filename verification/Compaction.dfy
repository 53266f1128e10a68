/** How the JSON encoder spells a raw piece of a document: without white space between tokens
    and with the characters that matter to HTML and JavaScript escaped inside strings. */
module Compaction {
  import opened Wrappers
  import opened GraphFilter

  datatype Place = Outside | InString | AfterBackslash

  predicate IsSpace(c: char) {
    c == ' ' || c == '\t' || c == '\r' || c == '\n'
  }

  predicate IsEscaped(c: char) {
    c == '<' || c == '>' || c == '&' || c == '\U{2028}' || c == '\U{2029}'
  }

  function Digits(c: char): string
    requires IsEscaped(c)
  {
    if c == '<' then "003c"
    else if c == '>' then "003e"
    else if c == '&' then "0026"
    else if c == '\U{2028}' then "2028" else "2029"
  }

  function EscapeOf(c: char): string
    requires IsEscaped(c)
  {
    ['\\'] + (['u'] + Digits(c))
  }

  function After(c: char, at: Place): Place {
    match at
    case Outside => if c == '"' then InString else Outside
    case InString => if c == '"' then Outside else if c == '\\' then AfterBackslash else InString
    case AfterBackslash => InString
  }

  /** What is written for one character. */
  function Spelled(c: char, at: Place): string {
    if at == Outside && IsSpace(c) then ""
    else if at == InString && IsEscaped(c) then EscapeOf(c)
    else [c]
  }

  function CompactFrom(s: string, at: Place): string {
    if s == "" then "" else Spelled(s[0], at) + CompactFrom(s[1..], After(s[0], at))
  }

  function Compact(s: string): string {
    CompactFrom(s, Outside)
  }

  /** No white space between tokens, and in strings no angle bracket, ampersand, or line or
      paragraph separator. */
  predicate TightFrom(s: string, at: Place) {
    s == "" || match at
      case Outside => s[0] !in {' ', '\t', '\r', '\n'} && TightFrom(s[1..], if s[0] == '"' then InString else Outside)
      case InString =>
        && s[0] !in {'<', '>', '&', '\U{2028}', '\U{2029}'}
        && TightFrom(s[1..], if s[0] == '"' then Outside else if s[0] == '\\' then AfterBackslash else InString)
      case AfterBackslash => TightFrom(s[1..], InString)
  }

  predicate Plain(s: string) {
    forall i :: 0 <= i < |s| ==> s[i] != '"' && s[i] != '\\' && !IsEscaped(s[i])
  }

  lemma FirstThenRest(c: char, rest: string, at: Place)
    ensures CompactFrom([c] + rest, at) == Spelled(c, at) + CompactFrom(rest, After(c, at))
  {
    assert ([c] + rest)[1..] == rest;
  }

  lemma Regroup(c: char, a: string, b: string)
    ensures [c] + (a + b) == ([c] + a) + b
  {
  }

  /** Characters of a string that mean nothing to the encoder pass through it. */
  lemma {:induction false} PlainPasses(s: string, rest: string)
    requires Plain(s)
    ensures CompactFrom(s + rest, InString) == s + CompactFrom(rest, InString)
  {
    if s == "" {
      assert s + rest == rest;
      assert s + CompactFrom(rest, InString) == CompactFrom(rest, InString);
    } else {
      var c, tail := s[0], s[1..];
      assert s == [c] + tail;
      PlainPasses(tail, rest);
      FirstThenRest(c, tail + rest, InString);
      Regroup(c, tail, rest);
      Regroup(c, tail, CompactFrom(rest, InString));
    }
  }

  lemma DigitsArePlain(c: char)
    requires IsEscaped(c)
    ensures Plain(Digits(c))
  {
  }

  /** An escape is written as it is. */
  lemma EscapePasses(c: char, rest: string)
    requires IsEscaped(c)
    ensures CompactFrom(EscapeOf(c) + rest, InString) == EscapeOf(c) + CompactFrom(rest, InString)
  {
    var digits, written := Digits(c), CompactFrom(rest, InString);
    DigitsArePlain(c);
    PlainPasses(digits, rest);
    FirstThenRest('u', digits + rest, AfterBackslash);
    FirstThenRest('\\', ['u'] + (digits + rest), InString);
    Regroup('u', digits, rest);
    Regroup('u', digits, written);
    Regroup('\\', ['u'] + digits, rest);
    Regroup('\\', ['u'] + digits, written);
  }

  /** Compacting what was compacted changes nothing. */
  lemma {:induction false} CompactTwice(s: string, at: Place)
    ensures CompactFrom(CompactFrom(s, at), at) == CompactFrom(s, at)
  {
    if s != "" {
      var rest := CompactFrom(s[1..], After(s[0], at));
      CompactTwice(s[1..], After(s[0], at));
      if at == Outside && IsSpace(s[0]) {
        assert "" + rest == rest;
      } else if at == InString && IsEscaped(s[0]) {
        EscapePasses(s[0], rest);
      } else {
        assert ([s[0]] + rest)[1..] == rest;
      }
    }
  }

  /** So it is an encoder of the kind the filter's theorems ask for. */
  lemma CompactIsStable()
    ensures Stable(Compact)
  {
    forall b ensures Compact(Compact(b)) == Compact(b) {
      CompactTwice(b, Outside);
    }
  }

  lemma {:induction false} NoLeadingSpace(s: string)
    ensures CompactFrom(s, Outside) != "" ==> !IsSpace(CompactFrom(s, Outside)[0])
  {
    if s != "" && IsSpace(s[0]) {
      NoLeadingSpace(s[1..]);
    }
  }

  /** A piece is written as it came exactly when it has no white space between its tokens and
      nothing to escape in its strings. */
  lemma {:induction false} CompactIsIdentityIff(s: string, at: Place)
    ensures CompactFrom(s, at) == s <==> TightFrom(s, at)
  {
    if s != "" {
      var rest := CompactFrom(s[1..], After(s[0], at));
      CompactIsIdentityIff(s[1..], After(s[0], at));
      assert s == [s[0]] + s[1..];
      if at == Outside && IsSpace(s[0]) {
        NoLeadingSpace(s);
      } else if !(at == InString && IsEscaped(s[0])) {
        assert ([s[0]] + rest)[1..] == rest;
      }
    }
  }

  /** A piece with white space between its tokens does not keep its bytes, and nor does a
      string that holds an angle bracket. */
  lemma BytesMayChange()
    ensures Compact("[ ]") != "[ ]" && Compact("\"<\"") != "\"<\""
  {
    CompactIsIdentityIff("[ ]", Outside);
    CompactIsIdentityIff("\"<\"", Outside);
  }

  // ---- what a piece says

  /** What a reader takes from a piece: marks outside strings, the code points of its strings,
      short escapes, and a broken code point where four hexadecimal digits were due. */
  datatype Token = Mark(c: char) | Letter(code: nat) | Short(c: char) | Broken

  datatype Reading = Between | Within | Escape | Hex(left: nat, code: nat)

  function HexDigit(c: char): Option<nat> {
    if '0' <= c <= '9' then Some(c as nat - '0' as nat)
    else if 'a' <= c <= 'f' then Some(c as nat - 'a' as nat + 10)
    else if 'A' <= c <= 'F' then Some(c as nat - 'A' as nat + 10)
    else None
  }

  /** Where the reader is after a character, unless a digit was due and it is none. */
  function Onward(c: char, at: Reading): Reading
    requires at.Hex? ==> HexDigit(c).Some?
  {
    match at
    case Between => if c == '"' then Within else Between
    case Within => if c == '"' then Between else if c == '\\' then Escape else Within
    case Escape => if c == 'u' then Hex(4, 0) else Within
    case Hex(left, code) => if left <= 1 then Within else Hex(left - 1, 16 * code + HexDigit(c).value)
  }

  /** What it takes from that character. */
  function Said(c: char, at: Reading): seq<Token>
    requires at.Hex? ==> HexDigit(c).Some?
  {
    match at
    case Between => if c in {' ', '\t', '\r', '\n'} then [] else [Mark(c)]
    case Within => if c == '"' then [Mark(c)] else if c == '\\' then [] else [Letter(c as nat)]
    case Escape => if c == 'u' then [] else [Short(c)]
    case Hex(left, code) => if left <= 1 then [Letter(16 * code + HexDigit(c).value)] else []
  }

  function Tokens(s: string, at: Reading): seq<Token>
    decreases |s|, if at.Hex? then 1 else 0
  {
    if s == "" then []
    else if at.Hex? && HexDigit(s[0]).None? then [Broken] + Tokens(s, Within)
    else Said(s[0], at) + Tokens(s[1..], Onward(s[0], at))
  }

  /** Where the encoder is while the reader is at `at`. */
  function PlaceOf(at: Reading): Place {
    match at
    case Between => Outside
    case Within => InString
    case Escape => AfterBackslash
    case Hex(_, _) => InString
  }

  lemma TokensOf(c: char, rest: string, at: Reading)
    requires at.Hex? ==> HexDigit(c).Some?
    ensures Tokens([c] + rest, at) == Said(c, at) + Tokens(rest, Onward(c, at))
  {
    assert ([c] + rest)[1..] == rest;
  }

  lemma SilentOf(c: char, rest: string, at: Reading)
    requires (at.Hex? ==> HexDigit(c).Some?) && Said(c, at) == []
    ensures Tokens([c] + rest, at) == Tokens(rest, Onward(c, at))
  {
    TokensOf(c, rest, at);
    assert [] + Tokens(rest, Onward(c, at)) == Tokens(rest, Onward(c, at));
  }

  lemma FirstTwoDigits(a: char, b: char, rest: string)
    requires HexDigit(a).Some? && HexDigit(b).Some?
    ensures Tokens([a] + ([b] + rest), Hex(4, 0)) == Tokens(rest, Hex(2, 16 * HexDigit(a).value + HexDigit(b).value))
  {
    SilentOf(a, [b] + rest, Hex(4, 0));
    SilentOf(b, rest, Hex(3, HexDigit(a).value));
  }

  lemma LastTwoDigits(c: char, d: char, rest: string, code: nat)
    requires HexDigit(c).Some? && HexDigit(d).Some?
    ensures Tokens([c] + ([d] + rest), Hex(2, code))
         == [Letter(16 * (16 * code + HexDigit(c).value) + HexDigit(d).value)] + Tokens(rest, Within)
  {
    SilentOf(c, [d] + rest, Hex(2, code));
    TokensOf(d, rest, Hex(1, 16 * code + HexDigit(c).value));
  }

  /** Four digits say the code point they write out. */
  lemma FourDigits(a: char, b: char, c: char, d: char, rest: string)
    requires HexDigit(a).Some? && HexDigit(b).Some? && HexDigit(c).Some? && HexDigit(d).Some?
    ensures var code := 16 * (16 * (16 * HexDigit(a).value + HexDigit(b).value) + HexDigit(c).value) + HexDigit(d).value;
      Tokens([a] + ([b] + ([c] + ([d] + rest))), Hex(4, 0)) == [Letter(code)] + Tokens(rest, Within)
  {
    FirstTwoDigits(a, b, [c] + ([d] + rest));
    LastTwoDigits(c, d, rest, 16 * HexDigit(a).value + HexDigit(b).value);
  }

  lemma DigitsSay(a: char, b: char, c: char, d: char, rest: string)
    requires HexDigit(a).Some? && HexDigit(b).Some? && HexDigit(c).Some? && HexDigit(d).Some?
    ensures var code := 16 * (16 * (16 * HexDigit(a).value + HexDigit(b).value) + HexDigit(c).value) + HexDigit(d).value;
      Tokens((['\\'] + (['u'] + [a, b, c, d])) + rest, Within) == [Letter(code)] + Tokens(rest, Within)
  {
    var digits := [a] + ([b] + ([c] + ([d] + rest)));
    FourDigits(a, b, c, d, rest);
    SilentOf('u', digits, Escape);
    SilentOf('\\', ['u'] + digits, Within);
    assert (['\\'] + (['u'] + [a, b, c, d])) + rest == ['\\'] + (['u'] + digits);
  }

  /** An escape says the character it stands for. */
  lemma EscapeSays(c: char, rest: string)
    requires IsEscaped(c)
    ensures Tokens(EscapeOf(c) + rest, Within) == [Letter(c as nat)] + Tokens(rest, Within)
  {
    var d := Digits(c);
    DigitsSay(d[0], d[1], d[2], d[3], rest);
    assert d == [d[0], d[1], d[2], d[3]];
  }

  /** One character says the same as it is written, before texts that say the same. */
  lemma SpelledSaysTheSame(c: char, rest: string, written: string, at: Reading)
    requires at.Hex? ==> HexDigit(c).Some?
    requires Tokens(written, Onward(c, at)) == Tokens(rest, Onward(c, at))
    ensures Tokens(Spelled(c, PlaceOf(at)) + written, at) == Tokens([c] + rest, at)
  {
    TokensOf(c, rest, at);
    if at == Between && IsSpace(c) {
      assert "" + written == written;
      assert [] + Tokens(written, Between) == Tokens(written, Between);
    } else if at == Within && IsEscaped(c) {
      EscapeSays(c, written);
    } else {
      TokensOf(c, written, at);
    }
  }

  /** Where a digit was due and there is none, the reader goes on as within a string. */
  lemma NoDigitSaysTheSame(s: string, written: string, left: nat, code: nat)
    requires s != "" && HexDigit(s[0]).None? && written != "" && HexDigit(written[0]).None?
    requires Tokens(written, Within) == Tokens(s, Within)
    ensures Tokens(written, Hex(left, code)) == Tokens(s, Hex(left, code))
  {
  }

  lemma OneMoreSaysTheSame(c: char, rest: string, at: Reading)
    requires at.Hex? ==> HexDigit(c).Some?
    requires Tokens(CompactFrom(rest, PlaceOf(Onward(c, at))), Onward(c, at)) == Tokens(rest, Onward(c, at))
    ensures Tokens(CompactFrom([c] + rest, PlaceOf(at)), at) == Tokens([c] + rest, at)
  {
    var written := CompactFrom(rest, PlaceOf(Onward(c, at)));
    FirstThenRest(c, rest, PlaceOf(at));
    SpelledSaysTheSame(c, rest, written, at);
  }

  /** The encoder changes how a piece is spelled and nothing that it says. */
  lemma {:induction false} CompactSaysTheSame(s: string, at: Reading)
    ensures Tokens(CompactFrom(s, PlaceOf(at)), at) == Tokens(s, at)
    decreases |s|, if at.Hex? then 1 else 0
  {
    if s != "" {
      var c, rest := s[0], s[1..];
      assert s == [c] + rest;
      if at.Hex? && HexDigit(c).None? {
        CompactSaysTheSame(s, Within);
        NoDigitSaysTheSame(s, CompactFrom(s, InString), at.left, at.code);
      } else {
        CompactSaysTheSame(rest, Onward(c, at));
        OneMoreSaysTheSame(c, rest, at);
      }
    }
  }

  /** So a reader that goes by what a piece says reads back what was written. */
  lemma ReadersAgree<T(!new)>(parse: seq<Token> -> Option<T>, items: seq<Element<T>>)
    requires forall i :: 0 <= i < |items| ==> items[i] == Read(items[i].bytes, (b: string) => parse(Tokens(b, Between)))
    ensures forall i :: 0 <= i < |items| ==>
      Recoded(items, Compact)[i] == Read(Compact(items[i].bytes), (b: string) => parse(Tokens(b, Between)))
  {
    var read := (b: string) => parse(Tokens(b, Between));
    forall b ensures read(Compact(b)) == read(b) {
      CompactSaysTheSame(b, Between);
    }
    WrittenIsReadBack(items, Compact, read);
  }
}
