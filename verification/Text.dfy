/** String handling behind the names and numbers of a dataset: the %20 encoding of attribute names,
    WWW escapes in variable names, and dimension sizes in decimal. */
module Text {
  import opened Wrappers

  // ---------------------------------------------------------------------------------------------
  // The %20 encoding of attribute names
  // ---------------------------------------------------------------------------------------------

  /** Does t occur in s at index i? */
  predicate OccursAt(s: string, t: string, i: nat) {
    i + |t| <= |s| && s[i..i + |t|] == t
  }

  predicate Occurs(s: string, t: string) {
    exists i :: 0 <= i <= |s| && OccursAt(s, t, i)
  }

  /** Every %20, taken from left to right, becomes a space. */
  function DecodeSpaces(s: string): string {
    if s == "" then ""
    else if OccursAt(s, "%20", 0) then " " + DecodeSpaces(s[3..])
    else [s[0]] + DecodeSpaces(s[1..])
  }

  /** Every space becomes %20. */
  function EncodeSpaces(s: string): string {
    if s == "" then ""
    else (if s[0] == ' ' then "%20" else [s[0]]) + EncodeSpaces(s[1..])
  }

  /** string::find: the first occurrence of t in s. */
  method Find(s: string, t: string) returns (pos: Option<nat>)
    ensures pos.Some? ==> OccursAt(s, t, pos.value) && forall i :: 0 <= i < pos.value ==> !OccursAt(s, t, i)
    ensures pos.None? ==> !Occurs(s, t)
  {
    var i := 0;
    while i <= |s|
      invariant forall j :: 0 <= j < i ==> !OccursAt(s, t, j)
    {
      if OccursAt(s, t, i) { return Some(i); }
      i := i + 1;
    }
    return None;
  }

  lemma {:induction false} OccursAtTail(s: string, t: string, i: nat)
    requires s != ""
    ensures OccursAt(s, t, i + 1) <==> OccursAt(s[1..], t, i)
  {
    if i + 1 + |t| <= |s| {
      assert s[1..][i..i + |t|] == s[i + 1..i + 1 + |t|];
    }
  }

  lemma EscapeChars(s: string, i: nat)
    ensures OccursAt(s, "%20", i) <==> i + 3 <= |s| && s[i] == '%' && s[i + 1] == '2' && s[i + 2] == '0'
  {
    if i + 3 <= |s| {
      assert s[i..i + 3] == [s[i], s[i + 1], s[i + 2]];
    }
  }

  /** Decoding one more occurrence by hand does not change what the whole decodes to. */
  lemma {:induction false} DecodeFirst(s: string, pos: nat)
    requires OccursAt(s, "%20", pos) && forall i :: 0 <= i < pos ==> !OccursAt(s, "%20", i)
    ensures DecodeSpaces(s) == DecodeSpaces(s[..pos] + " " + s[pos + 3..])
  {
    var n := s[..pos] + " " + s[pos + 3..];
    if pos == 0 {
      assert n == " " + s[3..];
      EscapeChars(n, 0);
      assert n[1..] == s[3..];
    } else {
      assert !OccursAt(s, "%20", 0);
      OccursAtTail(s, "%20", pos - 1);
      forall i | 0 <= i < pos - 1 ensures !OccursAt(s[1..], "%20", i) { OccursAtTail(s, "%20", i); }
      DecodeFirst(s[1..], pos - 1);
      assert s[1..][..pos - 1] == s[..pos][1..] && s[1..][pos + 2..] == s[pos + 3..];
      assert n[1..] == s[1..][..pos - 1] + " " + s[1..][pos - 1 + 3..];
      assert n[0] == s[0];
      assert !OccursAt(n, "%20", 0) by { EscapeChars(s, 0); EscapeChars(s, pos); EscapeChars(n, 0); }
    }
  }

  lemma {:induction false} DecodeNothing(s: string)
    requires !Occurs(s, "%20")
    ensures DecodeSpaces(s) == s
  {
    if s != "" {
      assert !OccursAt(s, "%20", 0);
      forall i | 0 <= i <= |s[1..]| ensures !OccursAt(s[1..], "%20", i) { OccursAtTail(s, "%20", i); }
      DecodeNothing(s[1..]);
    }
  }

  method RemoveSpaceEncoding(s: string) returns (n: string)
    ensures n == DecodeSpaces(s)
  {
    n := s;
    var pos := Find(n, "%20");
    while pos.Some?
      invariant DecodeSpaces(n) == DecodeSpaces(s)
      invariant pos.Some? ==> OccursAt(n, "%20", pos.value) &&
                              forall i :: 0 <= i < pos.value ==> !OccursAt(n, "%20", i)
      invariant pos.None? ==> !Occurs(n, "%20")
      decreases |n|, pos.Some?
    {
      DecodeFirst(n, pos.value);
      n := n[..pos.value] + " " + n[pos.value + 3..];
      pos := Find(n, "%20");
    }
    DecodeNothing(n);
  }

  function Spaces(s: string): nat {
    if s == "" then 0 else (if s[0] == ' ' then 1 else 0) + Spaces(s[1..])
  }

  /** Encoding the first space by hand leaves the rest of the work, one space less. */
  lemma {:induction false} EncodeFirst(s: string, pos: nat)
    requires OccursAt(s, " ", pos) && forall i :: 0 <= i < pos ==> !OccursAt(s, " ", i)
    ensures EncodeSpaces(s) == EncodeSpaces(s[..pos] + "%20" + s[pos + 1..])
    ensures Spaces(s[..pos] + "%20" + s[pos + 1..]) < Spaces(s)
  {
    var n := s[..pos] + "%20" + s[pos + 1..];
    assert s[pos..pos + 1][0] == ' ';
    if pos == 0 {
      assert n[1..][1..][1..] == s[1..];
      assert EncodeSpaces(n[1..][1..]) == "0" + EncodeSpaces(s[1..]);
      assert EncodeSpaces(n[1..]) == "2" + EncodeSpaces(n[1..][1..]);
      assert EncodeSpaces(n) == "%" + EncodeSpaces(n[1..]);
      assert Spaces(n[1..][1..]) == Spaces(s[1..]);
      assert Spaces(n[1..]) == Spaces(n[1..][1..]);
    } else {
      assert s[0] != ' ' by { assert s[0..1] == [s[0]]; assert !OccursAt(s, " ", 0); }
      OccursAtTail(s, " ", pos - 1);
      forall i | 0 <= i < pos - 1 ensures !OccursAt(s[1..], " ", i) { OccursAtTail(s, " ", i); }
      EncodeFirst(s[1..], pos - 1);
      assert n[1..] == s[1..][..pos - 1] + "%20" + s[1..][pos..];
    }
  }

  lemma {:induction false} EncodeNothing(s: string)
    requires ' ' !in s
    ensures EncodeSpaces(s) == s
  {
    if s != "" { EncodeNothing(s[1..]); }
  }

  lemma NoSpaceLeft(s: string)
    requires !Occurs(s, " ")
    ensures ' ' !in s
  {
    forall i | 0 <= i < |s| ensures s[i] != ' ' {
      assert s[i..i + 1] == [s[i]];
      assert !OccursAt(s, " ", i);
    }
  }

  method AddSpaceEncoding(s: string) returns (n: string)
    ensures n == EncodeSpaces(s)
  {
    n := s;
    var pos := Find(n, " ");
    while pos.Some?
      invariant EncodeSpaces(n) == EncodeSpaces(s)
      invariant pos.Some? ==> OccursAt(n, " ", pos.value) &&
                              forall i :: 0 <= i < pos.value ==> !OccursAt(n, " ", i)
      invariant pos.None? ==> !Occurs(n, " ")
      decreases Spaces(n), pos.Some?
    {
      EncodeFirst(n, pos.value);
      n := n[..pos.value] + "%20" + n[pos.value + 1..];
      pos := Find(n, " ");
    }
    NoSpaceLeft(n);
    EncodeNothing(n);
  }

  /** Decoding leaves no %20 behind, so decoding again changes nothing. */
  lemma {:induction false} DecodeIsIdempotent(s: string)
    ensures !Occurs(DecodeSpaces(s), "%20") && DecodeSpaces(DecodeSpaces(s)) == DecodeSpaces(s)
  {
    DecodedHasNoEscape(s);
    DecodeNothing(DecodeSpaces(s));
  }

  lemma {:induction false} DecodedHasNoEscape(s: string)
    ensures !Occurs(DecodeSpaces(s), "%20")
  {
    if s != "" {
      var d := DecodeSpaces(s);
      var t := if OccursAt(s, "%20", 0) then s[3..] else s[1..];
      DecodedHasNoEscape(t);
      assert d[1..] == DecodeSpaces(t);
      NoEscapeInFront(s);
      forall i | 0 <= i <= |d| ensures !OccursAt(d, "%20", i) {
        if i > 0 { OccursAtTail(d, "%20", i - 1); }
      }
    }
  }

  /** A character of the decoded text is a decoded space or comes from the text unchanged. */
  lemma DecodedHead(s: string)
    ensures DecodeSpaces(s) != "" && DecodeSpaces(s)[0] != ' ' ==>
              s != "" && s[0] == DecodeSpaces(s)[0] && DecodeSpaces(s)[1..] == DecodeSpaces(s[1..])
  {}

  lemma NoEscapeInFront(s: string)
    ensures !OccursAt(DecodeSpaces(s), "%20", 0)
  {
    EscapeChars(DecodeSpaces(s), 0);
    EscapeChars(s, 0);
    DecodedHead(s);
    if |s| > 1 { DecodedHead(s[1..]); }
    if |s| > 2 { DecodedHead(s[1..][1..]); }
  }

  /** Decoding undoes encoding exactly for names without a %20 of their own. */
  lemma DecodeInvertsEncodeIff(s: string)
    ensures DecodeSpaces(EncodeSpaces(s)) == s <==> !Occurs(s, "%20")
  {
    if Occurs(s, "%20") {
      DecodeIsIdempotent(EncodeSpaces(s));
    } else {
      DecodeInvertsEncode(s);
    }
  }

  lemma {:induction false} DecodeInvertsEncode(s: string)
    requires !Occurs(s, "%20")
    ensures DecodeSpaces(EncodeSpaces(s)) == s
  {
    if s != "" {
      forall i | 0 <= i <= |s[1..]| ensures !OccursAt(s[1..], "%20", i) { OccursAtTail(s, "%20", i); }
      DecodeInvertsEncode(s[1..]);
      var e, t := EncodeSpaces(s), EncodeSpaces(s[1..]);
      if s[0] == ' ' {
        assert e[0..3] == "%20" && e[3..] == t;
      } else {
        assert e == [s[0]] + t && e[1..] == t;
        EscapeInEncoded(s);
      }
    }
  }

  /** A character of the encoded text is the start of an encoded space or the text's own. */
  lemma EncodedHead(s: string)
    ensures EncodeSpaces(s) != "" && EncodeSpaces(s)[0] != '%' ==>
              s != "" && s[0] == EncodeSpaces(s)[0] && EncodeSpaces(s)[1..] == EncodeSpaces(s[1..])
  {}

  lemma EscapeInEncoded(s: string)
    requires s != "" && s[0] != ' '
    ensures OccursAt(EncodeSpaces(s), "%20", 0) ==> OccursAt(s, "%20", 0)
  {
    EscapeChars(EncodeSpaces(s), 0);
    EscapeChars(s, 0);
    assert EncodeSpaces(s)[1..] == EncodeSpaces(s[1..]);
    if |s| > 1 { EncodedHead(s[1..]); }
    if |s| > 2 { EncodedHead(s[1..][1..]); }
  }

  // ---------------------------------------------------------------------------------------------
  // WWW escapes in variable names
  // ---------------------------------------------------------------------------------------------

  predicate IsDigit(c: char) {
    '0' <= c <= '9'
  }

  function HexDigit(c: char): (d: Option<nat>)
    ensures d.Some? ==> d.value < 16
  {
    if IsDigit(c) then Some(c as nat - '0' as nat)
    else if 'a' <= c <= 'f' then Some(c as nat - 'a' as nat + 10)
    else if 'A' <= c <= 'F' then Some(c as nat - 'A' as nat + 10)
    else None
  }

  /** unhexstring: the character with the hexadecimal code that a stream reads from s; nothing for code zero. White
      space and a sign in front of the number are taken, and a negative code wraps. */
  function Unhex(s: string): (r: string)
    requires |s| <= 2
    ensures |r| <= 1
  {
    var t := SkipSpaces(s);
    var signed := t != "" && (t[0] == '-' || t[0] == '+');
    var u := if signed then t[1..] else t;
    if u == "" || HexDigit(u[0]).None? then "" else
    var high := HexDigit(u[0]).value;
    var n := if |u| == 2 && HexDigit(u[1]).Some? then 16 * high + HexDigit(u[1]).value else high;
    var code := if signed && t[0] == '-' && n > 0 then 256 - n else n;
    if code == 0 then "" else [code as char]
  }

  /** www2id: each %xx from index i on becomes the character it stands for. */
  function Www2id(s: string, i: nat): string
    decreases |s| - i
  {
    if i >= |s| then s
    else if s[i] != '%' then Www2id(s, i + 1)
    else
      var end := if i + 3 <= |s| then i + 3 else |s|;
      Www2id(s[..i] + Unhex(s[i + 1..end]) + s[end..], i + 1)
  }

  /** The characters that id2www leaves as they are. */
  predicate Allowable(c: char) {
    'A' <= c <= 'Z' || 'a' <= c <= 'z' || IsDigit(c) || c in {'-', '+', '_', '/', '.', '\\', '*'}
  }

  predicate IsByte(c: char) {
    c as nat < 256
  }

  function HexChar(d: nat): char
    requires d < 16
  {
    if d < 10 then '0' + d as char else 'a' + (d - 10) as char
  }

  /** hexstring, with the percent sign */
  function Escaped(c: char): string
    requires IsByte(c)
  {
    ['%', HexChar(c as nat / 16), HexChar(c as nat % 16)]
  }

  predicate IsBytes(s: string) {
    forall i :: 0 <= i < |s| ==> IsByte(s[i])
  }

  /** The name with every other character replaced by its code. */
  function Id2www(s: string): string
    requires IsBytes(s)
  {
    if s == "" then "" else (if Allowable(s[0]) then [s[0]] else Escaped(s[0])) + Id2www(s[1..])
  }

  /** What the first character of the rest is replaced by. */
  function EncodedChar(c: char): string
    requires IsByte(c)
  {
    if Allowable(c) then [c] else Escaped(c)
  }

  lemma EncodeStep(front: string, rest: string)
    requires IsBytes(rest) && rest != ""
    ensures front + Id2www(rest) == (front + EncodedChar(rest[0])) + Id2www(rest[1..])
  {}

  lemma ReplaceAt(front: string, rest: string, e: string)
    requires rest != ""
    ensures var r, i := front + rest, |front|; r[i] == rest[0] && r[..i] + e + r[i + 1..] == (front + e) + rest[1..]
  {}

  /** id2www */
  method EncodeIdentifier(s: string) returns (r: string)
    requires IsBytes(s)
    ensures r == Id2www(s)
  {
    r := s;
    var i := 0;
    ghost var front, rest := "", s;
    while i < |r|
      invariant i == |front| && r == front + rest && IsBytes(rest) && front + Id2www(rest) == Id2www(s)
      decreases |rest|
    {
      EncodeStep(front, rest);
      ReplaceAt(front, rest, EncodedChar(rest[0]));
      if Allowable(r[i]) {
        assert front + rest == (front + [rest[0]]) + rest[1..];
        i := i + 1;
      } else {
        r := r[..i] + Escaped(r[i]) + r[i + 1..];
        i := i + 3;
      }
      front, rest := front + EncodedChar(rest[0]), rest[1..];
    }
  }

  /** www2id */
  method DecodeIdentifier(s: string) returns (r: string)
    ensures r == Www2id(s, 0)
  {
    r := s;
    var i := 0;
    while i < |r|
      invariant Www2id(r, i) == Www2id(s, 0)
      decreases |r| - i
    {
      if r[i] == '%' {
        var end := if i + 3 <= |r| then i + 3 else |r|;
        r := r[..i] + Unhex(r[i + 1..end]) + r[end..];
      }
      i := i + 1;
    }
  }

  lemma HexOf(d: nat)
    requires d < 16
    ensures HexDigit(HexChar(d)) == Some(d) && !IsSpace(HexChar(d)) && HexChar(d) !in {'-', '+'}
    ensures d >= 10 ==> HexDigit('A' + (d - 10) as char) == Some(d)
  {}

  lemma UnhexEscaped(c: char)
    requires IsByte(c)
    ensures Unhex(Escaped(c)[1..]) == if c as nat == 0 then "" else [c]
  {
    var n := c as nat;
    HexOf(n / 16);
    HexOf(n % 16);
    assert Escaped(c)[1..] == [HexChar(n / 16), HexChar(n % 16)];
    assert 16 * (n / 16) + n % 16 == n;
  }

  lemma PlainStep(front: string, c: char, rest: string)
    requires c != '%'
    ensures Www2id(front + ([c] + rest), |front|) == Www2id((front + [c]) + rest, |front + [c]|)
  {
    assert front + ([c] + rest) == (front + [c]) + rest;
  }

  lemma EscapeStep(front: string, c: char, rest: string)
    requires IsByte(c) && c as nat != 0
    ensures Www2id(front + (Escaped(c) + rest), |front|) == Www2id((front + [c]) + rest, |front + [c]|)
  {
    var t, i := front + (Escaped(c) + rest), |front|;
    UnhexEscaped(c);
    assert t[i] == '%' && t[i + 1..i + 3] == Escaped(c)[1..];
    assert t[..i] + [c] + t[i + 3..] == (front + [c]) + rest;
  }

  lemma {:induction false} DecodesTail(front: string, s: string)
    requires IsBytes(s) && forall i :: 0 <= i < |s| ==> s[i] as nat != 0
    ensures Www2id(front + Id2www(s), |front|) == front + s
    decreases |s|
  {
    if s == "" {
      assert front + "" == front;
      NothingBehind(front);
    } else {
      var c, rest := s[0], Id2www(s[1..]);
      DecodesTail(front + [c], s[1..]);
      assert (front + [c]) + s[1..] == front + s;
      if Allowable(c) { PlainStep(front, c, rest); } else { EscapeStep(front, c, rest); }
    }
  }

  lemma NothingBehind(s: string)
    ensures Www2id(s, |s|) == s
  {}

  lemma UnhexIsNoZero(s: string)
    requires |s| <= 2
    ensures forall c :: c in Unhex(s) ==> c as nat != 0
  {}

  lemma {:induction false} DecodedHasNoZero(t: string, i: nat)
    requires forall k :: 0 <= k < |t| ==> t[k] as nat != 0
    ensures forall k :: 0 <= k < |Www2id(t, i)| ==> Www2id(t, i)[k] as nat != 0
    decreases |t| - i
  {
    if i < |t| {
      if t[i] != '%' {
        DecodedHasNoZero(t, i + 1);
      } else {
        var end := if i + 3 <= |t| then i + 3 else |t|;
        UnhexIsNoZero(t[i + 1..end]);
        var u := t[..i] + Unhex(t[i + 1..end]) + t[end..];
        forall k | 0 <= k < |u| ensures u[k] as nat != 0 {
          assert u[k] in t[..i] || u[k] in Unhex(t[i + 1..end]) || u[k] in t[end..];
        }
        DecodedHasNoZero(u, i + 1);
      }
    }
  }

  lemma {:induction false} EncodedHasNoZero(s: string)
    requires IsBytes(s)
    ensures forall k :: 0 <= k < |Id2www(s)| ==> Id2www(s)[k] as nat != 0
  {
    if s != "" {
      EncodedHasNoZero(s[1..]);
      HexOf(s[0] as nat / 16);
      HexOf(s[0] as nat % 16);
    }
  }

  /** Decoding undoes encoding for every name except one with a zero byte, which is lost. */
  lemma IdentifierReturnsIff(s: string)
    requires IsBytes(s)
    ensures Www2id(Id2www(s), 0) == s <==> forall i :: 0 <= i < |s| ==> s[i] as nat != 0
  {
    if forall i :: 0 <= i < |s| ==> s[i] as nat != 0 {
      DecodesTail("", s);
      assert "" + Id2www(s) == Id2www(s) && "" + s == s;
    } else {
      EncodedHasNoZero(s);
      DecodedHasNoZero(Id2www(s), 0);
    }
  }

  // ---------------------------------------------------------------------------------------------
  // Sizes in decimal
  // ---------------------------------------------------------------------------------------------

  function DigitChar(d: nat): char
    requires d < 10
  {
    '0' + d as char
  }

  /** What operator<< writes for an int. */
  function Decimal(n: int): (s: string)
    decreases n < 0, if n < 0 then -n else n
  {
    if n < 0 then "-" + Decimal(-n)
    else if n < 10 then [DigitChar(n)]
    else Decimal(n / 10) + [DigitChar(n % 10)]
  }

  predicate IsSpace(c: char) {
    c in {' ', '\t', '\n', '\r', '\U{000B}', '\U{000C}'}
  }

  function SkipSpaces(s: string): (r: string)
    ensures |r| <= |s|
  {
    if s != "" && IsSpace(s[0]) then SkipSpaces(s[1..]) else s
  }

  /** The digits of s from index i on, added to what has been read so far. */
  function Digits(s: string, i: nat, value: nat): nat
    decreases |s| - i
  {
    if i < |s| && IsDigit(s[i]) then Digits(s, i + 1, 10 * value + (s[i] as nat - '0' as nat)) else value
  }

  /** atoi */
  function Atoi(s: string): int {
    var t := SkipSpaces(s);
    if t != "" && t[0] == '-' then 0 - Digits(t, 1, 0)
    else if t != "" && t[0] == '+' then Digits(t, 1, 0)
    else Digits(t, 0, 0)
  }

  lemma {:induction false} DigitsSplit(s: string, t: string, i: nat, value: nat)
    requires i <= |s| && forall k :: i <= k < |s| ==> IsDigit(s[k])
    ensures Digits(s + t, i, value) == Digits(s + t, |s|, Digits(s, i, value))
    decreases |s| - i
  {
    if i < |s| {
      assert (s + t)[i] == s[i];
      DigitsSplit(s, t, i + 1, 10 * value + (s[i] as nat - '0' as nat));
    }
  }

  lemma {:induction false} DigitsOfDecimal(n: nat)
    ensures Digits(Decimal(n), 0, 0) == n
    ensures |Decimal(n)| > 0 && forall k :: 0 <= k < |Decimal(n)| ==> IsDigit(Decimal(n)[k])
  {
    if n >= 10 {
      DigitsOfDecimal(n / 10);
      var s, t := Decimal(n / 10), [DigitChar(n % 10)];
      DigitsSplit(s, t, 0, 0);
      assert (s + t)[|s|] == t[0];
    }
  }

  lemma {:induction false} DigitsBehind(front: string, s: string, i: nat, value: nat)
    ensures Digits(front + s, |front| + i, value) == Digits(s, i, value)
    decreases |s| - i
  {
    if i < |s| {
      assert (front + s)[|front| + i] == s[i];
      if IsDigit(s[i]) {
        DigitsBehind(front, s, i + 1, 10 * value + (s[i] as nat - '0' as nat));
      }
    }
  }

  lemma {:induction false} SpacesAreSkipped(white: string, rest: string)
    requires (forall c :: c in white ==> IsSpace(c)) && (rest != "" ==> !IsSpace(rest[0]))
    ensures SkipSpaces(white + rest) == rest
  {
    if white == "" {
      assert white + rest == rest;
    } else {
      assert IsSpace(white[0]) && (white + rest)[1..] == white[1..] + rest;
      SpacesAreSkipped(white[1..], rest);
    }
  }

  /** What follows the digits does not matter. */
  lemma NumberEnds(digits: string, rest: string)
    requires (forall k :: 0 <= k < |digits| ==> IsDigit(digits[k])) && (rest != "" ==> !IsDigit(rest[0]))
    ensures Digits(digits + rest, 0, 0) == Digits(digits, 0, 0)
  {
    DigitsSplit(digits, rest, 0, 0);
  }

  /** An int written in decimal is read back, whatever white space is in front of it and whatever text behind
      it, unless that begins with a digit. */
  lemma AtoiReads(white: string, n: int, rest: string)
    requires (forall c :: c in white ==> IsSpace(c)) && (rest != "" ==> !IsDigit(rest[0]))
    ensures Atoi(white + (Decimal(n) + rest)) == n
  {
    var digits := Decimal(if n < 0 then -n else n);
    DigitsOfDecimal(if n < 0 then -n else n);
    NumberEnds(digits, rest);
    var u := Decimal(n) + rest;
    assert u[0] == if n < 0 then '-' else digits[0];
    SpacesAreSkipped(white, u);
    if n < 0 {
      assert u == "-" + (digits + rest);
      DigitsBehind("-", digits + rest, 0, 0);
    }
  }

  /** Every int survives being written in decimal and read back. */
  lemma AtoiInvertsDecimal(n: int)
    ensures Atoi(Decimal(n)) == n
  {
    AtoiReads("", n, "");
    assert "" + (Decimal(n) + "") == Decimal(n);
  }

  // ---------------------------------------------------------------------------------------------
  // Dots
  // ---------------------------------------------------------------------------------------------

  /** The first dot; the length of the name when there is none. */
  function Dot(name: string): (d: nat)
    ensures d <= |name| && (d < |name| ==> name[d] == '.') && '.' !in name[..d]
  {
    if name == "" || name[0] == '.' then 0 else
    var d := Dot(name[1..]);
    assert name[..d + 1] == [name[0]] + name[1..][..d];
    d + 1
  }

  /** The last dot; the length of the name when there is none. */
  function LastDot(name: string): (d: nat)
    ensures d <= |name| && (d < |name| ==> name[d] == '.' && '.' !in name[d + 1..])
  {
    if '.' !in name then |name|
    else if name[|name| - 1] == '.' then |name| - 1
    else
      var front := name[..|name| - 1];
      assert name == front + [name[|name| - 1]];
      var d := LastDot(front);
      assert name[d + 1..] == front[d + 1..] + [name[|name| - 1]];
      d
  }

  /** The names between the dots. */
  function Parts(path: string): (names: seq<string>)
    ensures names != [] && forall i :: 0 <= i < |names| ==> '.' !in names[i]
    decreases |path|
  {
    var d := Dot(path);
    if d == |path| then [path] else [path[..d]] + Parts(path[d + 1..])
  }

  function Joined(names: seq<string>): string
    requires names != []
  {
    if |names| == 1 then names[0] else names[0] + "." + Joined(names[1..])
  }

  lemma {:induction false} DotIs(s: string, d: nat)
    requires d <= |s| && (d < |s| ==> s[d] == '.') && forall i :: 0 <= i < d ==> s[i] != '.'
    ensures Dot(s) == d
  {
    if d > 0 {
      assert s[0] != '.';
      DotIs(s[1..], d - 1);
    }
  }

  lemma DotOf(front: string, rest: string)
    requires '.' !in front
    ensures Dot(front + "." + rest) == |front| && Dot(front) == |front|
  {
    DotIs(front + "." + rest, |front|);
    DotIs(front, |front|);
  }

  lemma AtDot(path: string) returns (head: string, rest: string)
    requires '.' in path
    ensures '.' !in head && path == head + "." + rest && Parts(path) == [head] + Parts(rest)
  {
    var d := Dot(path);
    assert path == path[..d] + path[d..];
    head, rest := path[..d], path[d + 1..];
  }

  lemma PartsOfTwo(head: string, rest: string)
    requires '.' !in head
    ensures Parts(head + "." + rest) == [head] + Parts(rest)
  {
    DotOf(head, rest);
    var s := head + "." + rest;
    assert s[..|head|] == head && s[|head| + 1..] == rest;
  }

  lemma {:induction false} JoinedParts(path: string)
    ensures Joined(Parts(path)) == path
    decreases |path|
  {
    if '.' in path {
      var head, rest := AtDot(path);
      JoinedParts(rest);
      assert Parts(path)[1..] == Parts(rest);
    } else {
      OnePart(path);
    }
  }

  lemma {:induction false} PartsJoined(names: seq<string>)
    requires names != [] && forall i :: 0 <= i < |names| ==> '.' !in names[i]
    ensures Parts(Joined(names)) == names
  {
    if |names| == 1 {
      OnePart(names[0]);
    } else {
      PartsJoined(names[1..]);
      PartsOfTwo(names[0], Joined(names[1..]));
    }
  }

  lemma OnePart(name: string)
    requires '.' !in name
    ensures Parts(name) == [name]
  {
    DotOf(name, "");
  }

  lemma {:induction false} LastDotOf(front: string, rest: string)
    ensures LastDot(front + "." + rest) == |front| + if '.' in rest then 1 + LastDot(rest) else 0
  {
    var s, n := front + "." + rest, |rest|;
    assert s[|front|] == '.';
    if n == 0 {
      assert s[|s| - 1] == '.';
    } else {
      var c := rest[n - 1];
      assert s[|s| - 1] == c && s[..|s| - 1] == front + "." + rest[..n - 1];
      assert rest == rest[..n - 1] + [c];
      LastDotOf(front, rest[..n - 1]);
    }
  }

  lemma {:induction false} JoinedLast(names: seq<string>)
    requires |names| >= 2
    ensures Joined(names) == Joined(names[..|names| - 1]) + "." + names[|names| - 1]
  {
    if |names| == 2 {
      assert names[1..] == [names[1]] && names[..1] == [names[0]];
    } else {
      var front := names[..|names| - 1];
      assert names[1..][..|names| - 2] == front[1..];
      JoinedLast(names[1..]);
    }
  }

  lemma JoinedAtLastDot(front: string, last: string)
    requires '.' !in last
    ensures var s := front + "." + last; LastDot(s) == |front| && s[..LastDot(s)] == front && s[LastDot(s) + 1..] == last
  {
    LastDotOf(front, last);
  }

  /** The last dot stands before the last part. */
  lemma PartsAtLastDot(path: string) returns (front: string, last: string)
    requires '.' in path
    ensures LastDot(path) < |path| && front == path[..LastDot(path)] && last == path[LastDot(path) + 1..]
    ensures Parts(path) == Parts(front) + [last]
  {
    var names := Parts(path);
    var n := |names| - 1;
    JoinedParts(path);
    JoinedLast(names);
    front, last := Joined(names[..n]), names[n];
    JoinedAtLastDot(front, last);
    PartsJoined(names[..n]);
  }
}
