/** copyTemplate's rendering step (index.js): `_.template(template)` compiles a
    template, and calling the compiled function with the substitution map
    replaces every `${key}` by the key's value; an empty `${}` renders as nothing.
    Only the `${key}` form of interpolation is modelled, and a key is the verbatim
    text between the braces. */
module Render {

  datatype Piece = Char(c: char) | Ref(key: string)

  /** The result of calling a compiled template: the text, or the first key that
      the map does not bind. In JavaScript only a key that resolves nowhere (not
      in the map, its prototype, the compiled function's scope or the globals)
      throws a ReferenceError; the model takes every key the map leaves unbound
      as such a key. */
  datatype Rendered = Text(text: string) | Unbound(key: string)

  /** The end of a candidate key starting at `i`: the first `}` or backslash, or the end. */
  function KeyEnd(s: string, i: nat): (j: nat)
    requires i <= |s|
    ensures i <= j <= |s|
    ensures forall m :: i <= m < j ==> s[m] != '}' && s[m] != '\\'
    ensures j < |s| ==> s[j] == '}' || s[j] == '\\'
    decreases |s| - i
  {
    if i == |s| || s[i] == '}' || s[i] == '\\' then i else KeyEnd(s, i + 1)
  }

  /** `t` starts with a complete `${key}` token. */
  predicate StartsRef(t: string) {
    |t| >= 2 && t[0] == '$' && t[1] == '{' && KeyEnd(t, 2) < |t| && t[KeyEnd(t, 2)] == '}'
  }

  predicate IsKey(k: string) {
    forall m :: 0 <= m < |k| ==> k[m] != '}' && k[m] != '\\'
  }

  predicate WellFormed(ps: seq<Piece>) {
    forall i :: 0 <= i < |ps| && ps[i].Ref? ==> IsKey(ps[i].key)
  }

  /** `_.template`: splits a template into literal characters and `${key}` references. */
  function Compile(t: string): (ps: seq<Piece>)
    ensures WellFormed(ps)
    decreases |t|
  {
    if t == [] then []
    else if StartsRef(t) then
      var j := KeyEnd(t, 2);
      [Ref(t[2..j])] + Compile(t[j + 1..])
    else [Char(t[0])] + Compile(t[1..])
  }

  /** The template text that one piece stands for. */
  function PieceSource(p: Piece): (text: string) {
    match p
    case Char(c) => [c]
    case Ref(k) => "${" + k + "}"
  }

  /** The template text that a sequence of pieces stands for. */
  function Source(ps: seq<Piece>): (text: string) {
    if ps == [] then [] else PieceSource(ps[0]) + Source(ps[1..])
  }

  /** The length of the template text that Compile turns into its first piece. */
  function HeadLength(t: string): (n: nat)
    requires t != []
    ensures 1 <= n <= |t|
  {
    if StartsRef(t) then KeyEnd(t, 2) + 1 else 1
  }

  /** Compiling loses nothing: the pieces spell out the template again. */
  lemma {:induction false} CompileRoundTrip(t: string)
    ensures Source(Compile(t)) == t
    decreases |t|
  {
    if t != [] {
      var n := HeadLength(t);
      var rest := t[n..];
      CompileHead(t);
      CompileRoundTrip(rest);
      SplitJoin(t, n);
    }
  }

  lemma SplitJoin(t: string, n: nat)
    requires n <= |t|
    ensures t[..n] + t[n..] == t
  {
  }

  /** One step of Compile: the first piece spells out the first HeadLength(t) characters. */
  lemma CompileHead(t: string)
    requires t != []
    ensures Source(Compile(t)) == t[..HeadLength(t)] + Source(Compile(t[HeadLength(t)..]))
  {
    if StartsRef(t) {
      RefHead(t);
    } else {
      assert Compile(t) == [Char(t[0])] + Compile(t[1..]);
      SourceCons(Char(t[0]), Compile(t[1..]));
      assert t[..1] == [t[0]];
    }
  }

  /** A leading `${key}` token becomes one reference piece that spells it out again. */
  lemma RefHead(t: string)
    requires StartsRef(t)
    ensures Source(Compile(t)) == t[..KeyEnd(t, 2) + 1] + Source(Compile(t[KeyEnd(t, 2) + 1..]))
  {
    var j := KeyEnd(t, 2);
    var rest := Compile(t[j + 1..]);
    assert Compile(t) == [Ref(t[2..j])] + rest;
    SourceCons(Ref(t[2..j]), rest);
    TokenSource(t, j);
  }

  lemma SourceCons(p: Piece, ps: seq<Piece>)
    ensures Source([p] + ps) == PieceSource(p) + Source(ps)
  {
    assert ([p] + ps)[1..] == ps;
  }

  /** The reference piece of a `${key}` token spells out the token. */
  lemma TokenSource(t: string, j: nat)
    requires 2 <= j < |t| && t[0] == '$' && t[1] == '{' && t[j] == '}'
    ensures PieceSource(Ref(t[2..j])) == t[..j + 1]
  {
    assert t[..j + 1] == t[..2] + t[2..j] + [t[j]];
    assert t[..2] == "${";
  }

  /** Calling the compiled template with a substitution map, left to right. */
  function Apply(ps: seq<Piece>, vars: map<string, string>): (r: Rendered) {
    if ps == [] then Text([])
    else
      match ps[0]
      case Char(c) =>
        (match Apply(ps[1..], vars)
         case Text(rest) => Text([c] + rest)
         case Unbound(k) => Unbound(k))
      case Ref(k) =>
        if k == "" then Apply(ps[1..], vars)
        else if k !in vars then Unbound(k)
        else
          match Apply(ps[1..], vars)
          case Text(rest) => Text(vars[k] + rest)
          case Unbound(k') => Unbound(k')
  }

  function RenderText(template: string, vars: map<string, string>): (r: Rendered) {
    Apply(Compile(template), vars)
  }

  /** The keys the pieces interpolate; an empty `${}` interpolates nothing. */
  function Keys(ps: seq<Piece>): (keys: set<string>) {
    set i | 0 <= i < |ps| && ps[i].Ref? && ps[i].key != "" :: ps[i].key
  }

  /** The keys a template references. */
  function References(template: string): (keys: set<string>) {
    Keys(Compile(template))
  }

  lemma KeysTail(ps: seq<Piece>)
    requires ps != []
    ensures Keys(ps) == (if ps[0].Ref? && ps[0].key != "" then {ps[0].key} else {}) + Keys(ps[1..])
  {
    assert forall i :: 0 < i < |ps| ==> ps[i] == ps[1..][i - 1];
    forall k | k in Keys(ps[1..]) ensures k in Keys(ps) {
      var i :| 0 <= i < |ps[1..]| && ps[1..][i].Ref? && ps[1..][i].key != "" && ps[1..][i].key == k;
      assert ps[i + 1] == ps[1..][i];
    }
  }

  /** Rendering succeeds exactly when every referenced key is bound; otherwise it
      names a referenced key that is not. */
  lemma {:induction false} ApplySucceedsIff(ps: seq<Piece>, vars: map<string, string>)
    ensures Apply(ps, vars).Text? <==> Keys(ps) <= vars.Keys
    ensures Apply(ps, vars).Unbound? ==> Apply(ps, vars).key in Keys(ps) - vars.Keys
  {
    if ps != [] {
      ApplySucceedsIff(ps[1..], vars);
      KeysTail(ps);
    }
  }

  lemma RenderSucceedsIff(template: string, vars: map<string, string>)
    ensures RenderText(template, vars).Text? <==> References(template) <= vars.Keys
    ensures RenderText(template, vars).Unbound? ==> RenderText(template, vars).key in References(template) - vars.Keys
  {
    ApplySucceedsIff(Compile(template), vars);
  }

  /** Only the referenced keys matter: two maps that agree on them render alike. */
  lemma {:induction false} ApplyReadsOnlyReferences(ps: seq<Piece>, v1: map<string, string>, v2: map<string, string>)
    requires forall k :: k in Keys(ps) ==> (k in v1 <==> k in v2) && (k in v1 ==> v1[k] == v2[k])
    ensures Apply(ps, v1) == Apply(ps, v2)
  {
    if ps != [] {
      KeysTail(ps);
      ApplyReadsOnlyReferences(ps[1..], v1, v2);
    }
  }

  predicate InfixAt(needle: string, hay: string, i: int) {
    0 <= i <= |hay| - |needle| && hay[i..i + |needle|] == needle
  }

  predicate IsInfix(needle: string, hay: string) {
    exists i :: 0 <= i <= |hay| && InfixAt(needle, hay, i)
  }

  lemma InfixExtend(needle: string, hay: string, pre: string)
    requires IsInfix(needle, hay)
    ensures IsInfix(needle, pre + hay)
  {
    var i :| 0 <= i <= |hay| && InfixAt(needle, hay, i);
    assert (pre + hay)[|pre| + i..|pre| + i + |needle|] == needle;
    assert InfixAt(needle, pre + hay, |pre| + i);
  }

  /** The value of every referenced key appears in the rendered text. */
  lemma {:induction false} ApplyEmbedsValues(ps: seq<Piece>, vars: map<string, string>, k: string)
    requires Apply(ps, vars).Text? && k in Keys(ps)
    ensures k in vars && IsInfix(vars[k], Apply(ps, vars).text)
  {
    KeysTail(ps);
    ApplySucceedsIff(ps, vars);
    var rest := Apply(ps[1..], vars);
    ApplySucceedsIff(ps[1..], vars);
    if ps[0] == Ref(k) {
      assert Apply(ps, vars).text[0..|vars[k]|] == vars[k];
      assert InfixAt(vars[k], Apply(ps, vars).text, 0);
    } else {
      ApplyEmbedsValues(ps[1..], vars, k);
      match ps[0]
      case Char(c) => InfixExtend(vars[k], rest.text, [c]);
      case Ref(k') =>
        if k' != "" {
          InfixExtend(vars[k], rest.text, vars[k']);
        }
    }
  }

  lemma RenderEmbedsValues(template: string, vars: map<string, string>, k: string)
    requires RenderText(template, vars).Text? && k in References(template)
    ensures k in vars && IsInfix(vars[k], RenderText(template, vars).text)
  {
    ApplyEmbedsValues(Compile(template), vars, k);
  }

  /** Pieces that are all literal characters. */
  predicate AllChars(ps: seq<Piece>) {
    forall i :: 0 <= i < |ps| ==> ps[i].Char?
  }

  /** Literal pieces render to their own text. */
  lemma {:induction false} ApplyAllChars(ps: seq<Piece>, vars: map<string, string>)
    requires AllChars(ps)
    ensures Apply(ps, vars) == Text(Source(ps))
  {
    if ps != [] {
      assert ps[0].Char?;
      assert forall i :: 0 <= i < |ps[1..]| ==> ps[1..][i] == ps[i + 1];
      ApplyAllChars(ps[1..], vars);
    }
  }

  /** `t` contains the two characters `${` somewhere. */
  predicate HasMarker(t: string) {
    exists i :: 0 <= i < |t| - 1 && t[i] == '$' && t[i + 1] == '{'
  }

  lemma {:induction false} NoMarkerAllChars(t: string)
    requires !HasMarker(t)
    ensures AllChars(Compile(t))
    decreases |t|
  {
    if t != [] {
      assert !StartsRef(t);
      assert forall i :: 0 <= i < |t| - 1 ==> t[1..][i] == t[i + 1];
      NoMarkerAllChars(t[1..]);
      var ps := Compile(t);
      assert ps == [Char(t[0])] + Compile(t[1..]);
      assert forall i :: 1 <= i < |ps| ==> ps[i] == Compile(t[1..])[i - 1];
    }
  }

  /** A template without any `${` renders to itself, whatever the map. */
  lemma RenderLiteral(template: string, vars: map<string, string>)
    requires !HasMarker(template)
    ensures RenderText(template, vars) == Text(template)
  {
    NoMarkerAllChars(template);
    ApplyAllChars(Compile(template), vars);
    CompileRoundTrip(template);
  }

  /** A single reference renders to the key's value. */
  lemma RenderSingleReference(k: string, vars: map<string, string>)
    requires IsKey(k) && k != "" && k in vars
    ensures RenderText("${" + k + "}", vars) == Text(vars[k])
  {
    var t := "${" + k + "}";
    assert forall m :: 2 <= m < 2 + |k| ==> t[m] == k[m - 2];
    KeyEndAt(t, 2, 2 + |k|);
    assert StartsRef(t);
    assert t[2..2 + |k|] == k;
    assert t[3 + |k|..] == [];
    assert Compile(t) == [Ref(k)] + Compile([]);
    assert Apply([Ref(k)], vars) == Text(vars[k] + []);
  }

  /** An empty `${}` renders as nothing: lodash interpolates only a non-empty expression. */
  lemma RenderEmptyReference(rest: string, vars: map<string, string>)
    ensures RenderText("${}" + rest, vars) == RenderText(rest, vars)
  {
    var t := "${}" + rest;
    assert t[0] == '$' && t[1] == '{' && t[2] == '}';
    KeyEndAt(t, 2, 2);
    assert StartsRef(t);
    assert t[2..2] == "" && t[3..] == rest;
    var ps := Compile(t);
    assert ps == [Ref("")] + Compile(rest);
    assert ps[1..] == Compile(rest);
  }

  lemma {:induction false} KeyEndAt(s: string, i: nat, j: nat)
    requires i <= j < |s| && s[j] == '}'
    requires forall m :: i <= m < j ==> s[m] != '}' && s[m] != '\\'
    ensures KeyEnd(s, i) == j
    decreases j - i
  {
    if i < j {
      KeyEndAt(s, i + 1, j);
    }
  }
}
