/** The Python built-ins the converters lean on, as the scripts use them:
    str.split with and without a separator, str.strip, str.upper, str.startswith,
    float() of a decimal string, round() (half to even) and str() of an int. */
module Builtins {
  import opened Common

  // ---------------------------------------------------------------------------
  // Whitespace, as str.split() and str.strip() without arguments see it
  // ---------------------------------------------------------------------------

  /** The characters Python's str.isspace() accepts. */
  predicate IsSpace(c: char) {
    || c == ' ' || c == '\t' || c == '\n' || c == '\r' || c == '\U{000B}' || c == '\U{000C}'
    || ('\U{001C}' <= c <= '\U{001F}')
    || c == '\U{0085}' || c == '\U{00A0}' || c == '\U{1680}'
    || ('\U{2000}' <= c <= '\U{200A}')
    || c == '\U{2028}' || c == '\U{2029}' || c == '\U{202F}' || c == '\U{205F}' || c == '\U{3000}'
  }

  predicate NoSpace(s: string) {
    forall i :: 0 <= i < |s| ==> !IsSpace(s[i])
  }

  /** A token str.split() can produce: non-empty, without whitespace. */
  predicate Word(s: string) {
    |s| > 0 && NoSpace(s)
  }

  /** str.startswith(prefix). */
  predicate StartsWith(s: string, prefix: string) {
    |prefix| <= |s| && s[..|prefix|] == prefix
  }

  /** Leading whitespace removed. */
  function DropSpaces(s: string): (r: string)
    ensures |r| <= |s|
    ensures r == [] || !IsSpace(r[0])
  {
    if s != [] && IsSpace(s[0]) then DropSpaces(s[1..]) else s
  }

  /** DropSpaces keeps a suffix of s and drops only whitespace. */
  lemma {:induction false} DropSpacesSkipsSpaces(s: string)
    ensures DropSpaces(s) == s[|s| - |DropSpaces(s)|..]
    ensures forall i :: 0 <= i < |s| - |DropSpaces(s)| ==> IsSpace(s[i])
  {
    if s != [] && IsSpace(s[0]) {
      DropSpacesSkipsSpaces(s[1..]);
    }
  }

  /** Trailing whitespace removed. */
  function DropTrailingSpaces(s: string): (r: string)
    ensures |r| <= |s| && r == s[..|r|]
    ensures r == [] || !IsSpace(r[|r| - 1])
    ensures forall i :: |r| <= i < |s| ==> IsSpace(s[i])
  {
    if s != [] && IsSpace(s[|s| - 1]) then DropTrailingSpaces(s[..|s| - 1]) else s
  }

  /** str.strip(). */
  function Strip(s: string): string {
    DropTrailingSpaces(DropSpaces(s))
  }

  /** The longest prefix of s that holds no whitespace. */
  function Token(s: string): (t: string)
    ensures |t| <= |s| && t == s[..|t|]
    ensures |t| == |s| || IsSpace(s[|t|])
  {
    if s == [] || IsSpace(s[0]) then [] else [s[0]] + Token(s[1..])
  }

  /** A token holds no whitespace. */
  lemma {:induction false} TokenNoSpace(s: string)
    ensures NoSpace(Token(s))
  {
    if s != [] && !IsSpace(s[0]) {
      TokenNoSpace(s[1..]);
      assert Token(s) == [s[0]] + Token(s[1..]);
    }
  }

  /** str.split() with no argument: the whitespace-free runs of s, in order. */
  function SplitWs(s: string): (tokens: seq<string>)
    decreases |s|
  {
    var t := DropSpaces(s);
    if t == [] then []
    else
      var tok := Token(t);
      assert |tok| > 0 by { assert !IsSpace(t[0]); }
      [tok] + SplitWs(t[|tok|..])
  }

  /** Every token of str.split() is a non-empty run without whitespace. */
  lemma {:induction false} SplitWsWords(s: string)
    ensures forall i :: 0 <= i < |SplitWs(s)| ==> Word(SplitWs(s)[i])
    decreases |s|
  {
    var t := DropSpaces(s);
    if t != [] {
      var tok := Token(t);
      assert Word(tok) by {
        assert !IsSpace(t[0]);
        TokenNoSpace(t);
      }
      SplitWsWords(t[|tok|..]);
      var r := SplitWs(t[|tok|..]);
      assert SplitWs(s) == [tok] + r;
      forall i | 0 <= i < |SplitWs(s)| ensures Word(SplitWs(s)[i]) {
        if i > 0 { assert SplitWs(s)[i] == r[i - 1]; }
      }
    }
  }

  lemma TokenOfWord(t: string, rest: string)
    requires NoSpace(t)
    requires rest == [] || IsSpace(rest[0])
    ensures Token(t + rest) == t
  {
    TokenNoSpace(t + rest);
    assert (t + rest)[..|t|] == t;
  }

  lemma SplitWsLeadingSpace(c: char, s: string)
    requires IsSpace(c)
    ensures SplitWs([c] + s) == SplitWs(s)
  {
    assert ([c] + s)[1..] == s;
  }

  lemma SplitWsOfWord(t: string)
    requires Word(t)
    ensures SplitWs(t) == [t]
  {
    TokenOfWord(t, []);
    assert t + [] == t;
    assert DropSpaces(t) == t;
    assert t[|t|..] == [];
  }

  lemma SplitWsCons(t: string, j: string)
    requires Word(t)
    ensures SplitWs(t + [' '] + j) == [t] + SplitWs(j)
  {
    var s := t + [' '] + j;
    assert s == t + ([' '] + j);
    assert s[0] == t[0];
    assert DropSpaces(s) == s;
    TokenOfWord(t, [' '] + j);
    assert s[|t|..] == [' '] + j;
    SplitWsLeadingSpace(' ', j);
  }

  /** Splitting on whitespace undoes joining words with single spaces. */
  lemma {:induction false} SplitWsJoin(tokens: seq<string>)
    requires forall i :: 0 <= i < |tokens| ==> Word(tokens[i])
    ensures SplitWs(Join(tokens, ' ')) == tokens
  {
    if |tokens| == 1 {
      SplitWsOfWord(tokens[0]);
    } else if |tokens| > 1 {
      SplitWsJoin(tokens[1..]);
      SplitWsCons(tokens[0], Join(tokens[1..], ' '));
      assert tokens == [tokens[0]] + tokens[1..];
    }
  }

  /** Whitespace only, possibly empty. */
  predicate AllSpace(g: string) {
    forall i :: 0 <= i < |g| ==> IsSpace(g[i])
  }

  /** gaps[0] + fields[0] + gaps[1] + ... + fields[n - 1] + gaps[n]. */
  function Interleave(gaps: seq<string>, fields: seq<string>): string
    requires |gaps| == |fields| + 1
    decreases |fields|
  {
    if fields == [] then gaps[0] else gaps[0] + fields[0] + Interleave(gaps[1..], fields[1..])
  }

  /** The shape of a whitespace split: whitespace gaps around the fields, a
      non-empty gap between any two fields, and every field a word. */
  predicate SpacedOut(gaps: seq<string>, fields: seq<string>) {
    && |gaps| == |fields| + 1
    && (forall i :: 0 <= i < |gaps| ==> AllSpace(gaps[i]))
    && (forall i :: 0 < i < |fields| ==> gaps[i] != [])
    && (forall i :: 0 <= i < |fields| ==> Word(fields[i]))
  }

  /** The whitespace runs before, between and after the tokens of SplitWs(s). */
  function Gaps(s: string): (gaps: seq<string>)
    ensures |gaps| == |SplitWs(s)| + 1
    decreases |s|
  {
    var t := DropSpaces(s);
    if t == [] then [s]
    else
      var tok := Token(t);
      assert |tok| > 0 by { assert !IsSpace(t[0]); }
      [s[..|s| - |t|]] + Gaps(t[|tok|..])
  }

  /** One more word, with its leading gap, in front of a spaced-out split. */
  lemma SpacedOutCons(lead: string, tok: string, gs: seq<string>, fs: seq<string>)
    requires AllSpace(lead) && Word(tok) && SpacedOut(gs, fs)
    requires fs != [] ==> gs[0] != []
    ensures SpacedOut([lead] + gs, [tok] + fs)
    ensures Interleave([lead] + gs, [tok] + fs) == lead + tok + Interleave(gs, fs)
  {
    var g, f := [lead] + gs, [tok] + fs;
    assert g[1..] == gs && f[1..] == fs;
    forall i | 0 < i < |g| ensures g[i] == gs[i - 1] { }
    forall i | 0 < i < |f| ensures f[i] == fs[i - 1] { }
  }

  lemma TakeDrop(s: string, n: nat)
    requires n <= |s|
    ensures s == s[..n] + s[n..]
  {
  }

  /** The whitespace DropSpaces removes is a prefix of s, non-empty when s starts with whitespace. */
  lemma LeadingGap(s: string)
    ensures var t := DropSpaces(s); var lead := s[..|s| - |t|];
      AllSpace(lead) && s == lead + t && (s != [] && IsSpace(s[0]) ==> lead != [])
  {
    DropSpacesSkipsSpaces(s);
    var t := DropSpaces(s);
    var n := |s| - |t|;
    assert t == s[n..];
    TakeDrop(s, n);
    forall i | 0 <= i < n ensures IsSpace(s[..n][i]) {
      assert s[..n][i] == s[i];
    }
  }

  /** The first token of a string that starts with a non-space is a word, followed
      by nothing or by whitespace. */
  lemma FirstToken(t: string)
    requires t != [] && !IsSpace(t[0])
    ensures var tok := Token(t); var r := t[|tok|..];
      Word(tok) && (r == [] || IsSpace(r[0])) && t == tok + r
  {
    TokenNoSpace(t);
  }

  /** One step of str.split(): the leading gap, the first token and the rest. */
  lemma SplitWsUnfold(s: string)
    requires DropSpaces(s) != []
    ensures var t := DropSpaces(s); var tok := Token(t); var r := t[|tok|..]; var lead := s[..|s| - |t|];
      && AllSpace(lead) && Word(tok) && (r == [] || IsSpace(r[0])) && s == lead + tok + r
      && Gaps(s) == [lead] + Gaps(r) && SplitWs(s) == [tok] + SplitWs(r)
      && (IsSpace(s[0]) ==> lead != [])
  {
    LeadingGap(s);
    FirstToken(DropSpaces(s));
  }

  /** A whitespace-only string: no tokens, and the whole string is the one gap. */
  lemma GapsOfSpaces(s: string)
    requires DropSpaces(s) == []
    ensures SpacedOut(Gaps(s), SplitWs(s)) && Interleave(Gaps(s), SplitWs(s)) == s
    ensures s != [] ==> Gaps(s)[0] != []
  {
    DropSpacesSkipsSpaces(s);
    assert AllSpace(s);
  }

  /** The step of SplitWsGaps: a gap and a token in front of a rest that is
      already its split with gaps. */
  lemma GapsCons(s: string)
    requires DropSpaces(s) != []
    requires var t := DropSpaces(s); var r := t[|Token(t)|..];
      && SpacedOut(Gaps(r), SplitWs(r)) && Interleave(Gaps(r), SplitWs(r)) == r
      && (r != [] && IsSpace(r[0]) ==> Gaps(r)[0] != [])
    ensures SpacedOut(Gaps(s), SplitWs(s)) && Interleave(Gaps(s), SplitWs(s)) == s
    ensures IsSpace(s[0]) ==> Gaps(s)[0] != []
  {
    SplitWsUnfold(s);
    var t := DropSpaces(s);
    var tok := Token(t);
    var r := t[|tok|..];
    assert SplitWs(r) != [] ==> r != [];
    SpacedOutCons(s[..|s| - |t|], tok, Gaps(r), SplitWs(r));
  }

  /** Every string is its str.split() tokens with whitespace gaps around them. */
  lemma {:induction false} SplitWsGaps(s: string)
    ensures SpacedOut(Gaps(s), SplitWs(s))
    ensures Interleave(Gaps(s), SplitWs(s)) == s
    ensures s != [] && IsSpace(s[0]) ==> Gaps(s)[0] != []
    decreases |s|
  {
    var t := DropSpaces(s);
    if t == [] {
      GapsOfSpaces(s);
    } else {
      SplitWsGaps(t[|Token(t)|..]);
      GapsCons(s);
    }
  }

  /** Whitespace in front of a string that does not start with whitespace is dropped. */
  lemma {:induction false} DropLeadingSpaces(g: string, w: string)
    requires AllSpace(g) && (w == [] || !IsSpace(w[0]))
    ensures DropSpaces(g + w) == w
  {
    if g != [] {
      assert (g + w)[1..] == g[1..] + w;
      DropLeadingSpaces(g[1..], w);
    } else {
      assert g + w == w;
    }
  }

  /** Dropping the first gap and field keeps the shape. */
  lemma SpacedOutTail(gaps: seq<string>, fields: seq<string>)
    requires SpacedOut(gaps, fields) && fields != []
    ensures SpacedOut(gaps[1..], fields[1..])
  {
    var g, f := gaps[1..], fields[1..];
    forall i | 0 <= i < |g| ensures AllSpace(g[i]) {
      assert g[i] == gaps[i + 1];
    }
    forall i | 0 < i < |f| ensures g[i] != [] {
      assert g[i] == gaps[i + 1];
    }
    forall i | 0 <= i < |f| ensures Word(f[i]) {
      assert f[i] == fields[i + 1];
    }
  }

  /** What follows the first field of a spaced-out split is empty or starts with whitespace. */
  lemma RestAfterField(gaps: seq<string>, fields: seq<string>)
    requires SpacedOut(gaps, fields) && fields != []
    ensures var rest := Interleave(gaps[1..], fields[1..]);
      Interleave(gaps, fields) == gaps[0] + (fields[0] + rest) && (rest == [] || IsSpace(rest[0]))
  {
    var rest := Interleave(gaps[1..], fields[1..]);
    if |fields| > 1 {
      var g1, tail := gaps[1], fields[1] + Interleave(gaps[2..], fields[2..]);
      assert g1 != [] && IsSpace(g1[0]);
      assert gaps[1..][1..] == gaps[2..];
      assert fields[1..][1..] == fields[2..];
      assert rest == g1 + tail;
      assert rest[0] == g1[0];
    } else {
      assert rest == gaps[1];
    }
  }

  /** Conversely, whitespace gaps of that shape around words always split back
      into exactly those words: str.split() is the only such decomposition. */
  lemma {:induction false} SplitWsOfSpacedOut(gaps: seq<string>, fields: seq<string>)
    requires SpacedOut(gaps, fields)
    ensures SplitWs(Interleave(gaps, fields)) == fields
    decreases |fields|
  {
    if fields == [] {
      DropLeadingSpaces(gaps[0], []);
      assert gaps[0] + [] == gaps[0];
    } else {
      SpacedOutTail(gaps, fields);
      RestAfterField(gaps, fields);
      SplitWsOfSpacedOut(gaps[1..], fields[1..]);
      var f, rest := fields[0], Interleave(gaps[1..], fields[1..]);
      assert (f + rest)[0] == f[0];
      DropLeadingSpaces(gaps[0], f + rest);
      TokenOfWord(f, rest);
      assert (f + rest)[|f|..] == rest;
      assert fields == [f] + fields[1..];
    }
  }

  // ---------------------------------------------------------------------------
  // str.split(sep) with an explicit one-character separator
  // ---------------------------------------------------------------------------

  /** How many times c occurs in s. */
  function Count(s: string, c: char): nat {
    if s == [] then 0 else (if s[0] == c then 1 else 0) + Count(s[1..], c)
  }

  /** str.join, written sep.join(fields) in Python. */
  function Join(fields: seq<string>, sep: char): string {
    if |fields| == 0 then ""
    else if |fields| == 1 then fields[0]
    else fields[0] + [sep] + Join(fields[1..], sep)
  }

  /** str.split(sep): one field more than there are separators, empty fields
      kept, no field containing the separator. */
  function Split(s: string, sep: char): (fields: seq<string>)
    ensures |fields| == Count(s, sep) + 1
    ensures forall i :: 0 <= i < |fields| ==> sep !in fields[i]
  {
    if s == [] then [""]
    else
      var rest := Split(s[1..], sep);
      if s[0] == sep then [""] + rest else [[s[0]] + rest[0]] + rest[1..]
  }

  /** Joining the fields again gives back the line. */
  lemma {:induction false} JoinSplit(s: string, sep: char)
    ensures Join(Split(s, sep), sep) == s
  {
    if s != [] {
      var rest := Split(s[1..], sep);
      JoinSplit(s[1..], sep);
      if s[0] == sep {
        assert Split(s, sep) == [""] + rest;
        assert s == [sep] + s[1..];
      } else {
        var fields := Split(s, sep);
        assert fields == [[s[0]] + rest[0]] + rest[1..];
        if |rest| == 1 {
          assert s == [s[0]] + rest[0];
        } else {
          assert Join(rest, sep) == rest[0] + [sep] + Join(rest[1..], sep);
          assert fields[1..] == rest[1..];
          assert s == [s[0]] + s[1..];
        }
      }
    }
  }

  /** Splitting undoes joining fields that do not contain the separator. */
  lemma {:induction false} SplitJoin(fields: seq<string>, sep: char)
    requires |fields| >= 1
    requires forall i :: 0 <= i < |fields| ==> sep !in fields[i]
    ensures Split(Join(fields, sep), sep) == fields
  {
    if |fields| == 1 {
      SplitNoSep(fields[0], sep);
    } else {
      SplitJoin(fields[1..], sep);
      SplitPrefix(fields[0], Join(fields[1..], sep), sep);
      assert fields == [fields[0]] + fields[1..];
    }
  }

  lemma {:induction false} SplitNoSep(s: string, sep: char)
    requires sep !in s
    ensures Split(s, sep) == [s]
  {
    if s != [] {
      SplitNoSep(s[1..], sep);
      assert s == [s[0]] + s[1..];
    }
  }

  lemma {:induction false} SplitPrefix(f: string, rest: string, sep: char)
    requires sep !in f
    ensures Split(f + [sep] + rest, sep) == [f] + Split(rest, sep)
  {
    if f == [] {
      assert f + [sep] + rest == [sep] + rest;
      assert ([sep] + rest)[1..] == rest;
    } else {
      var s := f + [sep] + rest;
      assert s[1..] == f[1..] + [sep] + rest;
      SplitPrefix(f[1..], rest, sep);
      assert f == [f[0]] + f[1..];
    }
  }

  // ---------------------------------------------------------------------------
  // str.upper(), for the ASCII letters
  // ---------------------------------------------------------------------------

  function UpperChar(c: char): char {
    if 'a' <= c <= 'z' then (c as int - 32) as char else c
  }

  predicate NoLowerAscii(s: string) {
    forall i :: 0 <= i < |s| ==> !('a' <= s[i] <= 'z')
  }

  /** str.upper(): same length, ASCII lower-case letters raised, nothing else touched. */
  function Upper(s: string): (r: string)
    ensures |r| == |s| && NoLowerAscii(r)
    ensures forall i :: 0 <= i < |s| && !('a' <= s[i] <= 'z') ==> r[i] == s[i]
  {
    if s == [] then [] else [UpperChar(s[0])] + Upper(s[1..])
  }

  lemma {:induction false} UpperIdempotent(s: string)
    ensures Upper(Upper(s)) == Upper(s)
  {
    if s != [] {
      UpperIdempotent(s[1..]);
    }
  }

  // ---------------------------------------------------------------------------
  // float() of a decimal string, str() of an int, round() of a number
  // ---------------------------------------------------------------------------

  predicate IsDigit(c: char) {
    '0' <= c <= '9'
  }

  predicate AllDigits(s: string) {
    forall i :: 0 <= i < |s| ==> IsDigit(s[i])
  }

  function Pow10(n: nat): (p: nat)
    ensures p >= 1
  {
    if n == 0 then 1 else 10 * Pow10(n - 1)
  }

  /** The number a string of decimal digits denotes. */
  function DigitsValue(s: string): (n: nat)
    requires AllDigits(s)
    ensures n < Pow10(|s|)
  {
    if s == [] then 0 else DigitsValue(s[..|s| - 1]) * 10 + (s[|s| - 1] as int - '0' as int)
  }

  /** str.find(c), with -1 as None. */
  function Find(s: string, c: char): (r: Option<nat>)
    ensures r.None? <==> c !in s
    ensures r.Some? ==> r.value < |s| && s[r.value] == c && c !in s[..r.value]
  {
    if s == [] then None
    else if s[0] == c then Some(0)
    else match Find(s[1..], c)
      case None => None
      case Some(k) => assert s[1..][..k] == s[1..k + 1]; Some(k + 1)
  }

  /** An unsigned decimal: digits, optionally a point and more digits, at least one digit. */
  function ParseUnsigned(s: string): Option<real> {
    match Find(s, '.')
    case None =>
      if |s| > 0 && AllDigits(s) then Some(DigitsValue(s) as real) else None
    case Some(k) =>
      var ip, fp := s[..k], s[k + 1..];
      if |ip| + |fp| > 0 && AllDigits(ip) && AllDigits(fp)
      then Some(DigitsValue(ip) as real + DigitsValue(fp) as real / Pow10(|fp|) as real)
      else None
  }

  /** float(s) for a decimal string with an optional sign and surrounding whitespace;
      None where Python raises ValueError. */
  function ParseFloat(s: string): Option<real> {
    var t := Strip(s);
    if |t| > 0 && (t[0] == '+' || t[0] == '-') then
      match ParseUnsigned(t[1..])
      case None => None
      case Some(v) => Some(if t[0] == '-' then -v else v)
    else
      ParseUnsigned(t)
  }

  function DigitChar(d: nat): (c: char)
    requires d < 10
    ensures IsDigit(c) && c as int - '0' as int == d
  {
    ('0' as int + d) as char
  }

  /** str() of a non-negative int: decimal digits, no leading zero. */
  function NatStr(n: nat): (s: string)
    ensures |s| >= 1 && AllDigits(s)
    ensures s[0] == '0' ==> n == 0
  {
    if n < 10 then [DigitChar(n)] else NatStr(n / 10) + [DigitChar(n % 10)]
  }

  /** str() of an int. */
  function IntStr(i: int): string {
    if i < 0 then "-" + NatStr(-i) else NatStr(i)
  }

  lemma {:induction false} NatStrValue(n: nat)
    ensures DigitsValue(NatStr(n)) == n
  {
    if n >= 10 {
      NatStrValue(n / 10);
      var s := NatStr(n);
      assert s[..|s| - 1] == NatStr(n / 10);
    }
  }

  lemma UnsignedOfDigits(s: string)
    requires |s| >= 1 && AllDigits(s)
    ensures ParseUnsigned(s) == Some(DigitsValue(s) as real)
  {
  }

  lemma StripNoSpaceEnds(s: string)
    requires |s| >= 1 && !IsSpace(s[0]) && !IsSpace(s[|s| - 1])
    ensures Strip(s) == s
  {
  }

  lemma ParseNatStr(n: nat)
    ensures ParseUnsigned(NatStr(n)) == Some(n as real)
  {
    NatStrValue(n);
    UnsignedOfDigits(NatStr(n));
  }

  lemma DigitNotSpace(c: char)
    requires IsDigit(c) || c == '-'
    ensures !IsSpace(c)
  {
  }

  lemma ParseFloatOfDigits(d: string)
    requires |d| >= 1 && AllDigits(d)
    ensures ParseFloat(d) == ParseUnsigned(d)
  {
    DigitNotSpace(d[0]);
    DigitNotSpace(d[|d| - 1]);
    StripNoSpaceEnds(d);
  }

  lemma ParseFloatOfNegDigits(d: string, v: real)
    requires |d| >= 1 && AllDigits(d) && ParseUnsigned(d) == Some(v)
    ensures ParseFloat("-" + d) == Some(-v)
  {
    var m := "-" + d;
    DigitNotSpace(m[0]);
    assert m[|m| - 1] == d[|d| - 1];
    DigitNotSpace(d[|d| - 1]);
    StripNoSpaceEnds(m);
    assert m[1..] == d;
  }

  lemma ParseNegNatStr(n: nat)
    ensures ParseFloat("-" + NatStr(n)) == Some(-(n as real))
  {
    ParseNatStr(n);
    ParseFloatOfNegDigits(NatStr(n), n as real);
  }

  lemma IntStrRoundTripNonNegative(i: int)
    requires i >= 0
    ensures ParseFloat(IntStr(i)) == Some(i as real)
  {
    ParseNatStr(i);
    ParseFloatOfDigits(NatStr(i));
    assert IntStr(i) == NatStr(i);
  }

  lemma IntStrRoundTripNegative(i: int)
    requires i < 0
    ensures ParseFloat(IntStr(i)) == Some(i as real)
  {
    var n: nat := -i;
    var s := "-" + NatStr(n);
    assert IntStr(i) == s;
    ParseNegNatStr(n);
    assert -(n as real) == i as real;
  }

  /** float(str(i)) == i: the decimal string of an int reads back as that int. */
  lemma IntStrRoundTrip(i: int)
    ensures ParseFloat(IntStr(i)) == Some(i as real)
  {
    if i < 0 {
      IntStrRoundTripNegative(i);
    } else {
      IntStrRoundTripNonNegative(i);
    }
  }

  /** round(x) for a number: the nearest int, halves going to the even neighbour. */
  function Round(x: real): (n: int)
    ensures -0.5 <= n as real - x <= 0.5
    ensures (n as real - x == 0.5 || x - n as real == 0.5) ==> n % 2 == 0
  {
    var f := x.Floor;
    var d := x - f as real;
    if d < 0.5 then f
    else if d > 0.5 then f + 1
    else if f % 2 == 0 then f
    else f + 1
  }

  /** The two properties of Round determine it: any int that is within a half of x,
      and even when exactly a half away, is round(x). */
  lemma RoundUnique(x: real, n: int)
    requires -0.5 <= n as real - x <= 0.5
    requires (n as real - x == 0.5 || x - n as real == 0.5) ==> n % 2 == 0
    ensures n == Round(x)
  {
  }

  /** round() never decreases as its argument grows. */
  lemma RoundMonotone(x: real, y: real)
    requires x <= y
    ensures Round(x) <= Round(y)
  {
  }

  lemma RoundOfInt(k: int)
    ensures Round(k as real) == k
  {
    RoundUnique(k as real, k);
  }
}
