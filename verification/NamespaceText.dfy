/**
 * The text functions managed namespaces rest on, told independently: UTF-8 as the encoding of code points, white space
 * as a list of code points, hexadecimal and decimal as numerals, prefixes as components. Nothing here is used by
 * `ManagedNamespace`; it says that its functions are the ones they are named after.
 */
module NamespaceText {
  import opened ByteStrings
  import opened ManagedNamespace
  import opened Options

  // ------------------------------------------------------------------------------------------ UTF-8

  /** A Unicode scalar value: a code point that is not a surrogate. */
  predicate Scalar(c: nat) { c <= 0x10FFFF && !(0xD800 <= c <= 0xDFFF) }

  function Tail6(n: nat): Byte { (0x80 + n % 64) as Byte }

  /** Section 3 of RFC 3629. */
  function EncodeRune(c: nat): Bytes
    requires Scalar(c)
  {
    if c < 0x80 then [c as Byte]
    else if c < 0x800 then [(0xC0 + c / 64) as Byte, Tail6(c)]
    else if c < 0x1_0000 then [(0xE0 + c / 4096) as Byte, Tail6(c / 64), Tail6(c)]
    else [(0xF0 + c / 262144) as Byte, Tail6(c / 4096), Tail6(c / 64), Tail6(c)]
  }

  predicate AllScalars(cs: seq<nat>) { forall i | 0 <= i < |cs| :: Scalar(cs[i]) }

  function EncodeAll(cs: seq<nat>): Bytes
    requires AllScalars(cs)
  {
    if cs == [] then [] else EncodeRune(cs[0]) + EncodeAll(cs[1..])
  }

  lemma RuneIsValid(c: nat, rest: Bytes)
    requires Scalar(c)
    ensures ValidUtf8(EncodeRune(c) + rest) <==> ValidUtf8(rest)
  {
    var s := EncodeRune(c) + rest;
    if c < 0x80 {
      assert s[1..] == rest;
    } else if c < 0x800 {
      assert s[2..] == rest;
    } else if c < 0x1_0000 {
      assert s[3..] == rest;
      ThreeBytes(c);
    } else {
      assert s[4..] == rest;
      FourBytes(c);
    }
  }

  lemma ThreeBytes(c: nat)
    requires 0x800 <= c < 0x1_0000 && Scalar(c)
    ensures c / 4096 <= 15 && (c / 4096 == 0 ==> c / 64 % 64 >= 0x20) && (c / 4096 == 13 ==> c / 64 % 64 <= 0x1F)
  {
  }

  lemma FourBytes(c: nat)
    requires 0x1_0000 <= c <= 0x10FFFF
    ensures c / 262144 <= 4 && (c / 262144 == 0 ==> c / 4096 % 64 >= 0x10) && (c / 262144 == 4 ==> c / 4096 % 64 <= 0xF)
  {
  }

  lemma {:induction false} EncodedIsValid(cs: seq<nat>)
    requires AllScalars(cs)
    ensures ValidUtf8(EncodeAll(cs))
  {
    hide EncodeRune;
    if cs != [] {
      EncodedIsValid(cs[1..]);
      RuneIsValid(cs[0], EncodeAll(cs[1..]));
    }
  }

  /** The first code point of a valid text. */
  lemma FirstRune(s: Bytes) returns (c: nat, n: nat)
    requires ValidUtf8(s) && s != []
    ensures Scalar(c) && 0 < n <= |s| && s[..n] == EncodeRune(c) && ValidUtf8(s[n..])
  {
    if s[0] < 0x80 {
      c, n := s[0] as nat, 1;
    } else if s[0] <= 0xDF {
      c, n := (s[0] as nat - 0xC0) * 64 + (s[1] as nat - 0x80), 2;
    } else if s[0] <= 0xEF {
      n := 3;
      c := ThreeDecoded(s);
    } else {
      n := 4;
      c := FourDecoded(s);
    }
    assert s[..n] == EncodeRune(c);
  }

  lemma ThreeDecoded(s: Bytes) returns (c: nat)
    requires |s| >= 3 && 0xE0 <= s[0] <= 0xEF && Continues(s[1]) && Continues(s[2])
    requires (s[0] == 0xE0 ==> s[1] >= 0xA0) && (s[0] == 0xED ==> s[1] <= 0x9F)
    ensures 0x800 <= c < 0x1_0000 && Scalar(c)
    ensures s[0] as nat == 0xE0 + c / 4096 && s[1] == Tail6(c / 64) && s[2] == Tail6(c)
  {
    var a, b, d := s[0] as nat - 0xE0, s[1] as nat - 0x80, s[2] as nat - 0x80;
    c := a * 4096 + b * 64 + d;
    assert c / 64 == a * 64 + b;
  }

  lemma FourDecoded(s: Bytes) returns (c: nat)
    requires |s| >= 4 && 0xF0 <= s[0] <= 0xF4 && Continues(s[1]) && Continues(s[2]) && Continues(s[3])
    requires (s[0] == 0xF0 ==> s[1] >= 0x90) && (s[0] == 0xF4 ==> s[1] <= 0x8F)
    ensures 0x1_0000 <= c <= 0x10FFFF && Scalar(c)
    ensures s[0] as nat == 0xF0 + c / 262144 && s[1] == Tail6(c / 4096) && s[2] == Tail6(c / 64) && s[3] == Tail6(c)
  {
    var a, b, d, e := s[0] as nat - 0xF0, s[1] as nat - 0x80, s[2] as nat - 0x80, s[3] as nat - 0x80;
    c := a * 262144 + b * 4096 + d * 64 + e;
    assert c / 64 == a * 4096 + b * 64 + d;
    assert c / 4096 == a * 64 + b;
  }

  lemma {:induction false} Decoded(s: Bytes) returns (cs: seq<nat>)
    requires ValidUtf8(s)
    ensures AllScalars(cs) && EncodeAll(cs) == s
    decreases |s|
  {
    hide ValidUtf8, EncodeRune;
    if s == [] {
      cs := [];
    } else {
      var c, n := FirstRune(s);
      var rest := Decoded(s[n..]);
      cs := [c] + rest;
      assert cs[1..] == rest;
      assert s == s[..n] + s[n..];
    }
  }

  ghost predicate IsEncoding(s: Bytes, cs: seq<nat>) { AllScalars(cs) && EncodeAll(cs) == s }

  /** utf8.ValidString accepts exactly the encodings of code points. */
  lemma ValidUtf8Iff(s: Bytes)
    ensures ValidUtf8(s) <==> exists cs :: IsEncoding(s, cs)
  {
    hide ValidUtf8, EncodeAll;
    if ValidUtf8(s) {
      var cs := Decoded(s);
      assert IsEncoding(s, cs);
    }
    if cs :| IsEncoding(s, cs) { EncodedIsValid(cs); }
  }

  // ------------------------------------------------------------------------------------ white space

  /** unicode.IsSpace. */
  predicate SpaceRune(c: nat) {
    || 9 <= c <= 13 || c == 0x20 || c == 0x85 || c == 0xA0 || c == 0x1680 || 0x2000 <= c <= 0x200A
    || c == 0x2028 || c == 0x2029 || c == 0x202F || c == 0x205F || c == 0x3000
  }

  lemma SpaceIff(c: nat)
    requires Scalar(c)
    ensures IsSpace(EncodeRune(c)) <==> SpaceRune(c)
  {
    var p := EncodeRune(c);
    if 0x800 <= c < 0x1_0000 {
      assert p[..2] == [p[0], p[1]];
      assert c == c / 4096 * 4096 + c / 64 % 64 * 64 + c % 64;
    }
  }

  /** How many bytes a character has, by its first. */
  function LengthOf(b: Byte): nat { if b < 0x80 then 1 else if b < 0xE0 then 2 else if b < 0xF0 then 3 else 4 }

  lemma RuneShape(c: nat)
    requires Scalar(c)
    ensures var e := EncodeRune(c);
            && 1 <= |e| <= 4 && LengthOf(e[0]) == |e| && !Continues(e[0])
            && forall i | 1 <= i < |e| :: Continues(e[i])
  {
  }

  lemma SpaceShape(p: Bytes)
    requires IsSpace(p)
    ensures 1 <= |p| <= 3 && LengthOf(p[0]) == |p| && !Continues(p[0])
    ensures forall i | 1 <= i < |p| :: Continues(p[i])
  {
    if |p| == 3 && p[..2] == [0xE2, 0x80] { assert p[0] == p[..2][0] && p[1] == p[..2][1]; }
  }

  /** A text starts with white space exactly if its first character is. */
  lemma StartsIff(c: nat, rest: Bytes)
    requires Scalar(c)
    ensures StartsWithSpace(EncodeRune(c) + rest) <==> SpaceRune(c)
  {
    hide IsSpace, EncodeRune;
    SpaceIff(c);
    FirstIff(c, rest, 1);
    FirstIff(c, rest, 2);
    FirstIff(c, rest, 3);
    RuneShape(c);
    if SpaceRune(c) { SpaceShape(EncodeRune(c)); }
  }

  lemma FirstIff(c: nat, rest: Bytes, n: nat)
    requires Scalar(c) && 0 < n
    ensures SpaceFirst(EncodeRune(c) + rest, n) <==> n == |EncodeRune(c)| && SpaceRune(c)
  {
    hide IsSpace, EncodeRune;
    var e, s := EncodeRune(c), EncodeRune(c) + rest;
    SpaceIff(c);
    RuneShape(c);
    if |s| >= n {
      var p := s[..n];
      assert p[0] == e[0];
      if IsSpace(p) { SpaceShape(p); }
      if n == |e| { assert p == e; }
    }
  }

  lemma LastIff(front: Bytes, c: nat, n: nat)
    requires Scalar(c) && 0 < n
    ensures SpaceLast(front + EncodeRune(c), n) <==> n == |EncodeRune(c)| && SpaceRune(c)
  {
    hide IsSpace, EncodeRune;
    var e, s := EncodeRune(c), front + EncodeRune(c);
    SpaceIff(c);
    RuneShape(c);
    if |s| >= n {
      var p := s[|s| - n..];
      if IsSpace(p) { SameEnd(front, e, p, n); }
      if n == |e| { assert p == e; }
    }
  }

  /** Two characters that end a text are the same length: a continuing byte never starts one. */
  lemma SameEnd(front: Bytes, e: Bytes, p: Bytes, n: nat)
    requires 0 < n <= |front + e| && p == (front + e)[|front + e| - n..] && IsSpace(p) && e != []
    requires !Continues(e[0]) && forall i | 1 <= i < |e| :: Continues(e[i])
    ensures n == |e|
  {
    hide IsSpace;
    if n < |e| {
      EndByte(front, e, n, 0);
    } else {
      EndByte(front, e, n, n - |e|);
    }
    SpaceShape(p);
  }

  lemma EndByte(front: Bytes, e: Bytes, n: nat, i: nat)
    requires 0 < n <= |front + e| && i < n <= i + |e|
    ensures (front + e)[|front + e| - n..][i] == e[i + |e| - n]
  {
  }

  lemma EndsIff(front: Bytes, c: nat)
    requires Scalar(c)
    ensures EndsWithSpace(front + EncodeRune(c)) <==> SpaceRune(c)
  {
    hide IsSpace, EncodeRune, SpaceLast;
    SpaceIff(c);
    LastIff(front, c, 1);
    LastIff(front, c, 2);
    LastIff(front, c, 3);
    RuneShape(c);
    if SpaceRune(c) { SpaceShape(EncodeRune(c)); }
  }

  lemma {:induction false} EncodeSnoc(cs: seq<nat>)
    requires AllScalars(cs) && cs != []
    ensures EncodeAll(cs) == EncodeAll(cs[..|cs| - 1]) + EncodeRune(cs[|cs| - 1])
    decreases |cs|
  {
    hide EncodeRune;
    if |cs| > 1 {
      EncodeSnoc(cs[1..]);
      var front, last := cs[..|cs| - 1], EncodeRune(cs[|cs| - 1]);
      assert cs[1..][..|cs| - 2] == front[1..];
      Regroup3(EncodeRune(cs[0]), EncodeAll(front[1..]), last);
    } else {
      assert cs[1..] == [] && cs[..0] == [];
    }
  }

  lemma Regroup3(a: Bytes, b: Bytes, c: Bytes)
    ensures a + (b + c) == (a + b) + c
  {
  }

  /** strings.TrimSpace leaves a text as it is exactly if neither its first nor its last character is white space. */
  lemma TrimmedIff(cs: seq<nat>)
    requires AllScalars(cs) && cs != []
    ensures Trimmed(EncodeAll(cs)) <==> !SpaceRune(cs[0]) && !SpaceRune(cs[|cs| - 1])
  {
    hide StartsWithSpace, EndsWithSpace, EncodeRune, SpaceRune;
    StartsIff(cs[0], EncodeAll(cs[1..]));
    EncodeSnoc(cs);
    EndsIff(EncodeAll(cs[..|cs| - 1]), cs[|cs| - 1]);
  }

  // ----------------------------------------------------------------------------------------- numerals

  const DIGITS: string := "0123456789abcdef"

  /** Two lower-case digits a byte, the higher first. */
  lemma {:induction false} HexDigits(s: Bytes, i: nat)
    requires i < |s|
    ensures |Hex(s)| == 2 * |s|
    ensures Hex(s)[2 * i] as int == DIGITS[s[i] as int / 16] as int
    ensures Hex(s)[2 * i + 1] as int == DIGITS[s[i] as int % 16] as int
    decreases i
  {
    HexIsText(s);
    if i == 0 {
      DigitIs(s[0] as nat / 16);
      DigitIs(s[0] as nat % 16);
    } else {
      HexDigits(s[1..], i - 1);
      assert Hex(s)[2..] == Hex(s[1..]);
      assert Hex(s)[2 * i] == Hex(s[1..])[2 * (i - 1)] && Hex(s)[2 * i + 1] == Hex(s[1..])[2 * (i - 1) + 1];
    }
  }

  lemma DigitIs(n: nat)
    requires n < 16
    ensures HexDigit(n) as int == DIGITS[n] as int
  {
  }

  /** What a decimal numeral stands for. */
  function ValueOf(digits: Bytes): int {
    if digits == [] then 0 else ValueOf(digits[..|digits| - 1]) * 10 + (digits[|digits| - 1] as int - 48)
  }

  /** strconv.FormatInt(n, 10): decimal digits, no leading zero, standing for the number. */
  lemma {:induction false} DecimalIs(n: nat)
    ensures ValueOf(Decimal(n)) == n && Decimal(n) != []
    ensures forall i | 0 <= i < |Decimal(n)| :: 48 <= Decimal(n)[i] <= 57
    ensures n > 0 ==> Decimal(n)[0] != 48
    ensures n == 0 ==> Decimal(n) == [48]
    decreases n
  {
    if n >= 10 {
      DecimalIs(n / 10);
      var d := Decimal(n);
      assert d[..|d| - 1] == Decimal(n / 10);
    } else {
      assert Decimal(n)[..0] == [];
      assert ValueOf([]) == 0;
    }
  }

  // ---------------------------------------------------------------------------------------- components

  /** A key lies at or below a prefix exactly if its components extend the prefix's. */
  lemma WithinIff(name: Bytes, prefix: Bytes)
    ensures Within(name, prefix) <==> Split(prefix) <= Split(name)
  {
    hide Split, Join;
    if Within(name, prefix) { WithinExtends(name, prefix); }
    if Split(prefix) <= Split(name) {
      var a, c := Split(prefix), Split(name);
      JoinSplit(prefix);
      JoinSplit(name);
      var b := c[|a|..];
      assert c == a + b;
      if b == [] {
        assert c == a;
      } else {
        JoinConcat(a, b);
        assert name == prefix + [SLASH] + Join(b);
        assert prefix + [SLASH] <= name;
      }
    }
  }

  /** No backslash, percent sign or NUL. */
  predicate NoForbidden(s: Bytes) { forall i | 0 <= i < |s| :: s[i] != 92 && s[i] != 37 && s[i] != 0 }

  /** No component is empty, "." or "..". */
  predicate NoSpecial(parts: seq<Bytes>) {
    forall i | 0 <= i < |parts| :: parts[i] != [] && parts[i] != [46] && parts[i] != [46, 46]
  }

  /** A name is valid exactly if it is trimmed and has no forbidden byte and no special component. */
  lemma ValidPathIff(name: Bytes)
    requires name != []
    ensures ValidNamespacePath(name, false) <==> NoForbidden(name) && Trimmed(name) && NoSpecial(Split(name))
  {
    hide Split, Trimmed, Clear, AllPlain, NoForbidden, NoSpecial;
    ClearIff(name);
    PlainIff(Split(name));
    EndsAreParts(name);
    if NoSpecial(Split(name)) { EndsAreNotEmpty(Split(name)); }
  }

  lemma EndsAreNotEmpty(parts: seq<Bytes>)
    requires NoSpecial(parts) && parts != []
    ensures parts[0] != [] && parts[|parts| - 1] != []
  {
  }

  lemma ClearIff(s: Bytes)
    ensures Clear(s) <==> NoForbidden(s)
  {
  }

  lemma PlainIff(parts: seq<Bytes>)
    ensures AllPlain(parts) <==> NoSpecial(parts)
  {
    if AllPlain(parts) {
      forall i | 0 <= i < |parts| ensures parts[i] != [] && parts[i] != [46] && parts[i] != [46, 46] {
        assert Plain(parts[i]);
      }
    }
  }

  /** A slash at an end leaves an empty component there. */
  lemma EndsAreParts(name: Bytes)
    requires name != []
    ensures name[0] == SLASH ==> Split(name)[0] == []
    ensures name[|name| - 1] == SLASH ==> Split(name)[|Split(name)| - 1] == []
  {
    hide Split, Join;
    SplitPiece([]);
    if name[0] == SLASH {
      SplitConcat([], name[1..]);
      assert name == [] + [SLASH] + name[1..];
    }
    if name[|name| - 1] == SLASH {
      var front := name[..|name| - 1];
      SplitConcat(front, []);
      assert name == front + [SLASH] + [];
    }
  }

  /** A bound bucket lets a key through exactly if it is a proper name below the prefix; a listing may stop at it. */
  lemma CheckIff(prefix: Bytes, key: Bytes)
    ensures Check(prefix, key, false) <==>
              ValidNamespacePath(key, false) && Split(prefix) <= Split(key) && key != prefix
    ensures key == [] || key[|key| - 1] != SLASH ==>
              (Check(prefix, key, true) <==> ValidNamespacePath(key, false) && Split(prefix) <= Split(key))
    ensures Check(prefix, key + [SLASH], true) <==> ValidNamespacePath(key, false) && Split(prefix) <= Split(key)
  {
    hide ValidNamespacePath, Split;
    WithinIff(key, prefix);
    assert (key + [SLASH])[..|key|] == key;
  }

  /** The components of a derived prefix, by name. */
  lemma PrefixComponents(t: Tuple)
    requires ValidTuple(t)
    ensures FinalPrefix(t).Some?
    ensures Split(FinalPrefix(t).value)
            == (if t.root == [] then [] else Split(t.root))
               + [Ascii("clusters"), Hex(t.uid), Ascii("generations"), Decimal(t.generation), Ascii("assignments"),
                  Hex(t.assignment)]
               + [t.cluster]
  {
    hide ValidTuple, Split, Hex, Decimal;
    FinalParts(t);
    NamesAre();
  }

  lemma NamesAre()
    ensures CLUSTERS == Ascii("clusters") && GENERATIONS == Ascii("generations") && ASSIGNMENTS == Ascii("assignments")
  {
    assert |Ascii("generations")| == 11 && |Ascii("assignments")| == 11 && |Ascii("clusters")| == 8;
  }

  /** Which tuples a prefix is derived from. */
  lemma DerivedIff(t: Tuple)
    ensures FinalPrefix(t).Some? <==>
              && (t.root == [] || ValidNamespacePath(t.root, false)) && Ascii("clusters") !in Split(t.root)
              && ValidNamespacePath(t.cluster, false) && SLASH !in t.cluster
              && IdentityOk(t.uid) && IdentityOk(t.assignment) && 0 <= t.generation <= 0x7FFF_FFFF_FFFF_FFFF
  {
    hide Split, Trimmed, ValidUtf8;
    NamesAre();
  }

  /** At most 256 bytes of trimmed UTF-8 without NUL. */
  predicate IdentityOk(s: Bytes) {
    1 <= |s| <= 256 && ValidUtf8(s) && Trimmed(s) && forall i | 0 <= i < |s| :: s[i] != 0
  }

}
