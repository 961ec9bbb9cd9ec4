/** The run identifier generated in awsConfig (index.js): the template
    xxxxxxxx-xxxx-4xxx-yxxx-xxxxxxxxxxxx with every `x` replaced by a random
    hexadecimal digit and the `y` by a digit carrying the variant bits `10`,
    which is the version 4 layout of section 4.4 of RFC 4122. The random
    numbers `Math.random()*16|0` are taken as an input sequence of nibbles. */
module Uuid {

  type Nibble = r: int | 0 <= r < 16

  const Template := "xxxxxxxx-xxxx-4xxx-yxxx-xxxxxxxxxxxx"

  /** How many random nibbles one identifier consumes. */
  const EntropyNibbles := 31

  predicate IsSlot(c: char) {
    c == 'x' || c == 'y'
  }

  /** The number of characters of `t` that the replace callback rewrites. */
  function Slots(t: string): (n: nat) {
    if t == [] then 0 else (if IsSlot(t[0]) then 1 else 0) + Slots(t[1..])
  }

  predicate IsLowerHex(c: char) {
    ('0' <= c <= '9') || ('a' <= c <= 'f')
  }

  function HexValue(c: char): (v: int)
    requires IsLowerHex(c)
  {
    if c <= '9' then c as int - '0' as int else c as int - 'a' as int + 10
  }

  /** `v.toString(16)` for a single nibble. */
  function HexDigit(v: Nibble): (c: char)
    ensures IsLowerHex(c) && HexValue(c) == v
  {
    if v < 10 then ('0' as int + v) as char else ('a' as int + v - 10) as char
  }

  /** `r&0x3|0x8`: the two low random bits under the fixed variant bits `10`. */
  function Variant(r: Nibble): (v: Nibble)
    ensures 8 <= v <= 11 && v % 4 == r % 4
  {
    (((r as bv8) & 0x3) | 0x8) as int
  }

  /** The template's replace(/[xy]/g, callback): each slot takes the next random
      nibble, left to right. A slot past the end of `rs` takes 0; the identifier
      generator always supplies one nibble per slot. */
  function Fill(t: string, rs: seq<Nibble>): (u: string)
    ensures |u| == |t|
  {
    if t == [] then []
    else if IsSlot(t[0]) then
      var r := if rs == [] then 0 else rs[0];
      var rest := if rs == [] then [] else rs[1..];
      [HexDigit(if t[0] == 'x' then r else Variant(r))] + Fill(t[1..], rest)
    else [t[0]] + Fill(t[1..], rs)
  }

  lemma {:induction false} SlotsConcat(a: string, b: string)
    ensures Slots(a + b) == Slots(a) + Slots(b)
  {
    if a == [] {
      assert a + b == b;
    } else {
      assert (a + b)[1..] == a[1..] + b;
      SlotsConcat(a[1..], b);
    }
  }

  /** Character `k` of a filled template: a fixed character stays, a slot holds
      the nibble numbered by the slots before it. */
  lemma {:induction false} FillAt(t: string, rs: seq<Nibble>, k: nat)
    requires k < |t| && Slots(t[..k]) < |rs|
    ensures IsSlot(t[k]) ==> Fill(t, rs)[k] == HexDigit(if t[k] == 'x' then rs[Slots(t[..k])] else Variant(rs[Slots(t[..k])]))
    ensures !IsSlot(t[k]) ==> Fill(t, rs)[k] == t[k]
  {
    var used := if IsSlot(t[0]) then 1 else 0;
    if k > 0 {
      assert t[..k][1..] == t[1..][..k - 1];
      assert Slots(t[..k]) == used + Slots(t[1..][..k - 1]);
      FillAt(t[1..], rs[used..], k - 1);
    } else {
      assert t[..k] == [];
    }
  }

  // ---------------------------------------------------------------------------
  // The version 4 template

  /** Character `k` of the template: dashes at 8, 13, 18 and 23, `4` at 14, `y` at 19. */
  function Layout(k: nat): (c: char) {
    if k == 8 || k == 13 || k == 18 || k == 23 then '-'
    else if k == 14 then '4'
    else if k == 19 then 'y'
    else 'x'
  }

  /** The number of non-slot characters before position `k`. */
  function FixedBefore(k: nat): (n: nat) {
    (if k > 8 then 1 else 0) + (if k > 13 then 1 else 0) + (if k > 14 then 1 else 0)
    + (if k > 18 then 1 else 0) + (if k > 23 then 1 else 0)
  }

  lemma TemplateAt(k: nat)
    requires k < 36
    ensures |Template| == 36 && Template[k] == Layout(k)
  {
  }

  lemma {:induction false} TemplatePrefixSlots(k: nat)
    requires k <= 36
    ensures |Template| == 36 && Slots(Template[..k]) == k - FixedBefore(k)
  {
    if k > 0 {
      TemplatePrefixSlots(k - 1);
      TemplateAt(k - 1);
      assert Template[..k] == Template[..k - 1] + [Template[k - 1]];
      SlotsConcat(Template[..k - 1], [Template[k - 1]]);
    } else {
      assert Template[..k] == [];
    }
  }

  predicate IsVersion4(u: string) {
    && |u| == 36
    && u[8] == '-' && u[13] == '-' && u[18] == '-' && u[23] == '-'
    && u[14] == '4'
    && u[19] in "89ab"
    && forall k :: 0 <= k < 36 && k != 8 && k != 13 && k != 14 && k != 18 && k != 19 && k != 23 ==> IsLowerHex(u[k])
  }

  /** The uuid of awsConfig for the given random nibbles. */
  function Generate(entropy: seq<Nibble>): (id: string)
    requires |entropy| == EntropyNibbles
    ensures IsVersion4(id)
  {
    FilledIsVersion4(Template, entropy);
    Fill(Template, entropy)
  }

  /** What position `k` of a generated identifier holds: the template's fixed
      character, the variant digit, or the hex digit of nibble number `k` minus
      the fixed characters before it. */
  function GeneratedAt(entropy: seq<Nibble>, k: nat): (c: char)
    requires |entropy| == EntropyNibbles && k < 36
  {
    if Layout(k) == 'x' then HexDigit(entropy[k - FixedBefore(k)])
    else if Layout(k) == 'y' then HexDigit(Variant(entropy[15]))
    else Layout(k)
  }

  // The next two lemmas take the template as a variable `t` equal to it, which
  // keeps the verifier from evaluating the recursive functions on the literal.

  lemma FilledAt(t: string, entropy: seq<Nibble>, k: nat)
    requires t == Template && |entropy| == EntropyNibbles && k < 36
    ensures Fill(t, entropy)[k] == GeneratedAt(entropy, k)
  {
    TemplateAt(k);
    TemplatePrefixSlots(k);
    FillAt(t, entropy, k);
  }

  lemma FilledIsVersion4(t: string, entropy: seq<Nibble>)
    requires t == Template && |entropy| == EntropyNibbles
    ensures IsVersion4(Fill(t, entropy))
  {
    var id := Fill(t, entropy);
    forall k | 0 <= k < 36 ensures id[k] == GeneratedAt(entropy, k) {
      FilledAt(t, entropy, k);
    }
    assert GeneratedAt(entropy, 19) in "89ab";
  }

  lemma GenerateAt(entropy: seq<Nibble>, k: nat)
    requires |entropy| == EntropyNibbles && k < 36
    ensures Generate(entropy)[k] == GeneratedAt(entropy, k)
  {
    FilledAt(Template, entropy, k);
  }

  /** The template position that random nibble `i` lands on. */
  function SlotPosition(i: nat): (k: nat)
    requires i < EntropyNibbles
    ensures k < 36 && Layout(k) in "xy" && k - FixedBefore(k) == i
  {
    if i < 8 then i else if i < 12 then i + 1 else if i < 15 then i + 3 else if i < 19 then i + 4 else i + 5
  }

  /** Two runs give the same identifier exactly when their random nibbles agree,
      except for the two high bits of the variant nibble, which are overwritten. */
  lemma GenerateInjective(e1: seq<Nibble>, e2: seq<Nibble>)
    requires |e1| == EntropyNibbles && |e2| == EntropyNibbles
    ensures Generate(e1) == Generate(e2) <==>
      (forall i :: 0 <= i < EntropyNibbles && i != 15 ==> e1[i] == e2[i]) && e1[15] % 4 == e2[15] % 4
  {
    var u1, u2 := Generate(e1), Generate(e2);
    if u1 == u2 {
      forall i | 0 <= i < EntropyNibbles
        ensures i != 15 ==> e1[i] == e2[i]
        ensures i == 15 ==> e1[15] % 4 == e2[15] % 4
      {
        var k := SlotPosition(i);
        GenerateAt(e1, k);
        GenerateAt(e2, k);
        assert HexValue(GeneratedAt(e1, k)) == HexValue(GeneratedAt(e2, k));
      }
    }
    if (forall i :: 0 <= i < EntropyNibbles && i != 15 ==> e1[i] == e2[i]) && e1[15] % 4 == e2[15] % 4 {
      assert Variant(e1[15]) == Variant(e2[15]);
      forall k | 0 <= k < 36 ensures u1[k] == u2[k] {
        GenerateAt(e1, k);
        GenerateAt(e2, k);
      }
    }
  }
}
