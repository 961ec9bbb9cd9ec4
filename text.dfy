/** Character-level string functions used by the command bodies of index.js:
    skill-name normalisation, payload compaction and encodeURIComponent. */
module Text {

  /** The characters of `s` that satisfy `p`, in their original order. */
  function Filter(s: string, p: char -> bool): (r: string)
    ensures |r| <= |s|
    ensures forall i :: 0 <= i < |r| ==> p(r[i])
  {
    if s == [] then [] else (if p(s[0]) then [s[0]] else []) + Filter(s[1..], p)
  }

  lemma {:induction false} FilterConcat(a: string, b: string, p: char -> bool)
    ensures Filter(a + b, p) == Filter(a, p) + Filter(b, p)
  {
    if a == [] {
      assert a + b == b;
    } else {
      assert (a + b)[1..] == a[1..] + b;
      FilterConcat(a[1..], b, p);
    }
  }

  /** A string is left unchanged by a filter exactly when all its characters pass it. */
  lemma {:induction false} FilterFixed(s: string, p: char -> bool)
    ensures Filter(s, p) == s <==> forall i :: 0 <= i < |s| ==> p(s[i])
  {
    if s != [] && forall i :: 0 <= i < |s| ==> p(s[i]) {
      assert p(s[0]);
      assert forall i :: 0 <= i < |s[1..]| ==> p(s[1..][i]) by {
        forall i | 0 <= i < |s[1..]| ensures p(s[1..][i]) { assert s[1..][i] == s[i + 1]; }
      }
      FilterFixed(s[1..], p);
    }
  }

  /** Each character passing `p` occurs as often in the result as in `s`; no other character occurs. */
  lemma {:induction false} FilterCount(s: string, p: char -> bool, c: char)
    ensures multiset(Filter(s, p))[c] == if p(c) then multiset(s)[c] else 0
  {
    if s != [] {
      FilterCount(s[1..], p, c);
      assert s == [s[0]] + s[1..];
    }
  }

  // ---------------------------------------------------------------------------
  // Skill-name normalisation: name.replace(/\W+/g, '')

  /** A JavaScript regular-expression word character, `\w` without the `u` flag. */
  predicate IsWordChar(c: char) {
    ('A' <= c <= 'Z') || ('a' <= c <= 'z') || ('0' <= c <= '9') || c == '_'
  }

  predicate IsWordString(s: string) {
    forall i :: 0 <= i < |s| ==> IsWordChar(s[i])
  }

  /** Removes every run of non-word characters, which is removing every non-word character. */
  function Normalize(name: string): (r: string)
    ensures IsWordString(r)
  {
    Filter(name, IsWordChar)
  }

  /** Normalisation removes every non-word character and keeps every word character. */
  lemma NormalizeCounts(name: string, c: char)
    ensures multiset(Normalize(name))[c] == if IsWordChar(c) then multiset(name)[c] else 0
  {
    FilterCount(name, IsWordChar, c);
  }

  /** Normalisation leaves a name alone exactly when it already consists of word characters. */
  lemma NormalizeFixesWordStrings(name: string)
    ensures Normalize(name) == name <==> IsWordString(name)
  {
    FilterFixed(name, IsWordChar);
  }

  lemma NormalizeIdempotent(name: string)
    ensures Normalize(Normalize(name)) == Normalize(name)
  {
    NormalizeFixesWordStrings(Normalize(name));
  }

  /** Normalisation keeps the surviving characters in their original order. */
  lemma NormalizeConcat(a: string, b: string)
    ensures Normalize(a + b) == Normalize(a) + Normalize(b)
  {
    FilterConcat(a, b, IsWordChar);
  }

  /** One character of a suffix: kept when it is a word character, dropped otherwise. */
  lemma NormalizeFrom(s: string, k: nat)
    requires k < |s|
    ensures Normalize(s[k..]) == (if IsWordChar(s[k]) then [s[k]] else []) + Normalize(s[k + 1..])
  {
    assert s[k..][1..] == s[k + 1..];
  }

  /** `My Skill!` becomes `MySkill`. The name is given character by character so
      that the proof walks along it. */
  lemma NormalizeExample(raw: string)
    requires |raw| == 9 && forall k :: 0 <= k < 9 ==> raw[k] == "My Skill!"[k]
    ensures Normalize(raw) == "MySkill"
  {
    assert raw[9..] == [];
    NormalizeFrom(raw, 8);
    NormalizeFrom(raw, 7);
    NormalizeFrom(raw, 6);
    NormalizeFrom(raw, 5);
    NormalizeFrom(raw, 4);
    NormalizeFrom(raw, 3);
    NormalizeFrom(raw, 2);
    NormalizeFrom(raw, 1);
    NormalizeFrom(raw, 0);
    assert raw[0..] == raw;
  }

  // ---------------------------------------------------------------------------
  // Payload compaction: payload.replace(/\n/g, ' ').replace(/\s+/g, '')

  /** ECMAScript WhiteSpace or LineTerminator, which is what `\s` matches. */
  predicate IsJsSpace(c: char) {
    var cp := c as int;
    cp == 0x09 || cp == 0x0A || cp == 0x0B || cp == 0x0C || cp == 0x0D || cp == 0x20
    || cp == 0xA0 || cp == 0x1680 || (0x2000 <= cp <= 0x200A)
    || cp == 0x2028 || cp == 0x2029 || cp == 0x202F || cp == 0x205F
    || cp == 0x3000 || cp == 0xFEFF
  }

  predicate IsSignificant(c: char) {
    !IsJsSpace(c)
  }

  /** The first replace: every line feed becomes a space. */
  function NewlinesToSpaces(s: string): (r: string)
    ensures |r| == |s|
    ensures forall i :: 0 <= i < |s| ==> r[i] == if s[i] == '\n' then ' ' else s[i]
  {
    if s == [] then [] else [if s[0] == '\n' then ' ' else s[0]] + NewlinesToSpaces(s[1..])
  }

  /** The second replace: every run of whitespace is removed. */
  function StripSpace(s: string): (r: string)
    ensures forall i :: 0 <= i < |r| ==> !IsJsSpace(r[i])
  {
    Filter(s, IsSignificant)
  }

  lemma {:induction false} StripNewlinesToSpaces(s: string)
    ensures StripSpace(NewlinesToSpaces(s)) == StripSpace(s)
  {
    if s != [] {
      StripNewlinesToSpaces(s[1..]);
      assert NewlinesToSpaces(s)[1..] == NewlinesToSpaces(s[1..]);
    }
  }

  /** Both replaces together: the payload with every whitespace character removed. */
  function Compact(payload: string): (r: string)
    ensures forall i :: 0 <= i < |r| ==> !IsJsSpace(r[i])
    ensures r == Filter(payload, IsSignificant)
  {
    StripNewlinesToSpaces(payload);
    StripSpace(NewlinesToSpaces(payload))
  }

  /** The non-whitespace characters of the payload survive compaction, each as often as in the payload. */
  lemma CompactKeepsCharacters(payload: string, c: char)
    ensures multiset(Compact(payload))[c] == if IsJsSpace(c) then 0 else multiset(payload)[c]
  {
    FilterCount(payload, IsSignificant, c);
  }

  /** Compaction works piecewise, so the surviving characters keep their order. */
  lemma CompactConcat(a: string, b: string)
    ensures Compact(a + b) == Compact(a) + Compact(b)
  {
    FilterConcat(a, b, IsSignificant);
  }

  lemma CompactIdempotent(payload: string)
    ensures Compact(Compact(payload)) == Compact(payload)
  {
    FilterFixed(Compact(payload), IsSignificant);
  }

  // ---------------------------------------------------------------------------
  // encodeURIComponent (ECMAScript): unreserved characters pass, every other
  // code point becomes the percent-escaped bytes of its UTF-8 encoding.

  predicate IsUriUnreserved(c: char) {
    ('A' <= c <= 'Z') || ('a' <= c <= 'z') || ('0' <= c <= '9') || c in "-_.!~*'()"
  }

  /** The UTF-8 encoding of a Unicode scalar value. */
  function Utf8(c: char): (bytes: seq<int>)
    ensures 1 <= |bytes| <= 4
    ensures forall i :: 0 <= i < |bytes| ==> 0 <= bytes[i] < 256
  {
    var cp := c as int;
    if cp < 0x80 then [cp]
    else if cp < 0x800 then [0xC0 + cp / 64, 0x80 + cp % 64]
    else if cp < 0x1_0000 then [0xE0 + cp / 4096, 0x80 + (cp / 64) % 64, 0x80 + cp % 64]
    else [0xF0 + cp / 262144, 0x80 + (cp / 4096) % 64, 0x80 + (cp / 64) % 64, 0x80 + cp % 64]
  }

  function UpperHex(v: int): (c: char)
    requires 0 <= v < 16
  {
    if v < 10 then ('0' as int + v) as char else ('A' as int + v - 10) as char
  }

  function PercentEscape(bytes: seq<int>): (r: string)
    requires forall i :: 0 <= i < |bytes| ==> 0 <= bytes[i] < 256
    ensures |r| == 3 * |bytes|
  {
    if bytes == [] then []
    else ['%', UpperHex(bytes[0] / 16), UpperHex(bytes[0] % 16)] + PercentEscape(bytes[1..])
  }

  function EncodeChar(c: char): (r: string)
    ensures IsUriUnreserved(c) ==> r == [c]
    ensures !IsUriUnreserved(c) ==> |r| >= 3 && r[0] == '%'
  {
    if IsUriUnreserved(c) then [c] else PercentEscape(Utf8(c))
  }

  function EncodeUriComponent(s: string): (r: string)
    ensures |r| >= |s|
  {
    if s == [] then [] else EncodeChar(s[0]) + EncodeUriComponent(s[1..])
  }

  /** encodeURIComponent changes nothing exactly when every character is unreserved. */
  lemma {:induction false} EncodeIdentityIff(s: string)
    ensures EncodeUriComponent(s) == s <==> forall i :: 0 <= i < |s| ==> IsUriUnreserved(s[i])
  {
    if s != [] {
      EncodeIdentityIff(s[1..]);
      if IsUriUnreserved(s[0]) {
        if EncodeUriComponent(s) == s {
          assert EncodeUriComponent(s[1..]) == EncodeUriComponent(s)[1..];
        }
        if forall i :: 1 <= i < |s| ==> IsUriUnreserved(s[i]) {
          assert forall i :: 0 <= i < |s[1..]| ==> IsUriUnreserved(s[1..][i]) by {
            forall i | 0 <= i < |s[1..]| ensures IsUriUnreserved(s[1..][i]) { assert s[1..][i] == s[i + 1]; }
          }
        }
        assert forall i :: 0 <= i < |s[1..]| ==> s[1..][i] == s[i + 1];
      } else {
        assert |EncodeUriComponent(s)| > |s|;
      }
    }
  }

  /** A normalised skill name survives encodeURIComponent unchanged. */
  lemma EncodeNormalizedName(name: string)
    ensures EncodeUriComponent(Normalize(name)) == Normalize(name)
  {
    EncodeIdentityIff(Normalize(name));
  }
}
