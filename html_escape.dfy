/**
  `escapeHtml` of the bookmark encoder (src/utils/bookmarkExporter.ts): five
  global `String.prototype.replace` passes, `&` first. Proved here: the chain
  equals escaping each character on its own, the result holds none of
  `< > " '`, every `&` in it opens one of the five entities, and decoding
  the five entities gives the input back.
*/
module HtmlEscape {

  /** `s.replace(/c/g, with)` for a single-character pattern. */
  function ReplaceAll(s: string, c: char, with: string): (r: string)
    ensures forall x :: x in r ==> (x in s && x != c) || x in with
    ensures c !in s ==> r == s
  {
    if s == [] then []
    else (if s[0] == c then with else [s[0]]) + ReplaceAll(s[1..], c, with)
  }

  /** Replacing in a concatenation replaces in each part: the pass works character by character. */
  lemma {:induction false} ReplaceAllAppend(s: string, t: string, c: char, with: string)
    ensures ReplaceAll(s + t, c, with) == ReplaceAll(s, c, with) + ReplaceAll(t, c, with)
  {
    if s == [] {
      assert s + t == t;
    } else {
      var head := if s[0] == c then with else [s[0]];
      assert (s + t)[0] == s[0] && (s + t)[1..] == s[1..] + t;
      assert ReplaceAll(s + t, c, with) == head + ReplaceAll(s[1..] + t, c, with);
      ReplaceAllAppend(s[1..], t, c, with);
    }
  }

  const Amp: string := "&amp;"
  const Lt: string := "&lt;"
  const Gt: string := "&gt;"
  const Quot: string := "&quot;"
  const Apos: string := "&#039;"

  /** The five passes in source order. */
  function EscapeHtml(s: string): string {
    ReplaceAll(ReplaceAll(ReplaceAll(ReplaceAll(ReplaceAll(s, '&', Amp), '<', Lt), '>', Gt), '"', Quot), '\'', Apos)
  }

  /** The characters the passes rewrite. */
  predicate Special(x: char) {
    x == '&' || x == '<' || x == '>' || x == '"' || x == '\''
  }

  /** Reference definition: the escape of one character. */
  function EscapeChar(x: char): (r: string)
    ensures Special(x) ==> |r| > 1 && r[0] == '&'
    ensures !Special(x) ==> r == [x]
  {
    match x
    case '&' => Amp
    case '<' => Lt
    case '>' => Gt
    case '"' => Quot
    case '\'' => Apos
    case _ => [x]
  }

  /** Reference definition: each character escaped on its own, in order. */
  function EscapeEach(s: string): string {
    if s == [] then [] else EscapeChar(s[0]) + EscapeEach(s[1..])
  }

  lemma {:induction false} EscapeHtmlAppend(s: string, t: string)
    ensures EscapeHtml(s + t) == EscapeHtml(s) + EscapeHtml(t)
  {
    var a1, a2 := ReplaceAll(s, '&', Amp), ReplaceAll(t, '&', Amp);
    ReplaceAllAppend(s, t, '&', Amp);
    var b1, b2 := ReplaceAll(a1, '<', Lt), ReplaceAll(a2, '<', Lt);
    ReplaceAllAppend(a1, a2, '<', Lt);
    var c1, c2 := ReplaceAll(b1, '>', Gt), ReplaceAll(b2, '>', Gt);
    ReplaceAllAppend(b1, b2, '>', Gt);
    var d1, d2 := ReplaceAll(c1, '"', Quot), ReplaceAll(c2, '"', Quot);
    ReplaceAllAppend(c1, c2, '"', Quot);
    ReplaceAllAppend(d1, d2, '\'', Apos);
  }

  lemma ReplaceAllSingle(x: char, c: char, with: string)
    ensures ReplaceAll([x], c, with) == if x == c then with else [x]
  {
    assert [x][1..] == [];
  }

  /** On one character the five passes are its escape: in particular `&` is never escaped twice. */
  lemma EscapeHtmlOne(x: char)
    ensures EscapeHtml([x]) == EscapeChar(x)
  {
    ReplaceAllSingle(x, '&', Amp);
    var a := ReplaceAll([x], '&', Amp);
    if x == '&' {
      assert '<' !in a && '>' !in a && '"' !in a && '\'' !in a;
    } else {
      ReplaceAllSingle(x, '<', Lt);
      var b := ReplaceAll(a, '<', Lt);
      if x == '<' {
        assert '>' !in b && '"' !in b && '\'' !in b;
      } else {
        ReplaceAllSingle(x, '>', Gt);
        var c := ReplaceAll(b, '>', Gt);
        if x == '>' {
          assert '"' !in c && '\'' !in c;
        } else {
          ReplaceAllSingle(x, '"', Quot);
          var d := ReplaceAll(c, '"', Quot);
          if x == '"' {
            assert '\'' !in d;
          } else {
            ReplaceAllSingle(x, '\'', Apos);
          }
        }
      }
    }
  }

  lemma {:induction false} EscapeHtmlIsCharwise(s: string)
    ensures EscapeHtml(s) == EscapeEach(s)
  {
    if s == [] {
      assert EscapeHtml(s) == [];
    } else {
      assert s == [s[0]] + s[1..];
      EscapeHtmlAppend([s[0]], s[1..]);
      EscapeHtmlOne(s[0]);
      EscapeHtmlIsCharwise(s[1..]);
    }
  }

  /** No `<`, `>`, `"` or `'`: the text cannot open a tag or close an attribute. */
  predicate NoMarkup(t: string) {
    '<' !in t && '>' !in t && '"' !in t && '\'' !in t
  }

  lemma EscapeCharNoMarkup(x: char)
    ensures NoMarkup(EscapeChar(x))
  {
  }

  lemma {:induction false} EscapeEachNoMarkup(s: string)
    ensures NoMarkup(EscapeEach(s))
  {
    if s != [] {
      EscapeCharNoMarkup(s[0]);
      EscapeEachNoMarkup(s[1..]);
    }
  }

  /** The escaped text holds no markup character. */
  lemma EscapeHtmlNoMarkup(s: string)
    ensures NoMarkup(EscapeHtml(s))
  {
    EscapeHtmlIsCharwise(s);
    EscapeEachNoMarkup(s);
  }

  /** Position `i` of `t` starts one of the five entities. */
  predicate EntityAt(t: string, i: nat)
    requires i <= |t|
  {
    var u := t[i..];
    Amp <= u || Lt <= u || Gt <= u || Quot <= u || Apos <= u
  }

  lemma {:induction false} AmpersandsOpenEntitiesEach(s: string)
    ensures forall i :: 0 <= i < |EscapeEach(s)| && EscapeEach(s)[i] == '&' ==> EntityAt(EscapeEach(s), i)
  {
    if s != [] {
      var e, rest := EscapeChar(s[0]), EscapeEach(s[1..]);
      var t := e + rest;
      assert t == EscapeEach(s);
      AmpersandsOpenEntitiesEach(s[1..]);
      forall i | 0 <= i < |t| && t[i] == '&' ensures EntityAt(t, i) {
        if i < |e| {
          assert i == 0 && Special(s[0]);
          assert t[0..] == t && e <= t;
        } else {
          assert t[i..] == rest[i - |e|..];
          assert rest[i - |e|] == '&';
        }
      }
    }
  }

  /** Every `&` of the output opens an entity: no raw ampersand survives. */
  lemma AmpersandsOpenEntities(s: string)
    ensures forall i :: 0 <= i < |EscapeHtml(s)| && EscapeHtml(s)[i] == '&' ==> EntityAt(EscapeHtml(s), i)
  {
    EscapeHtmlIsCharwise(s);
    AmpersandsOpenEntitiesEach(s);
  }

  /** Text free of the five characters passes through unchanged. */
  lemma PlainTextUnchanged(s: string)
    requires forall x :: x in s ==> !Special(x)
    ensures EscapeHtml(s) == s
  {
  }

  /** Reads back the five entities (and nothing else) from escaped text. */
  function Unescape(t: string): string
    decreases |t|
  {
    if t == [] then []
    else if Amp <= t then "&" + Unescape(t[|Amp|..])
    else if Lt <= t then "<" + Unescape(t[|Lt|..])
    else if Gt <= t then ">" + Unescape(t[|Gt|..])
    else if Quot <= t then "\"" + Unescape(t[|Quot|..])
    else if Apos <= t then "'" + Unescape(t[|Apos|..])
    else [t[0]] + Unescape(t[1..])
  }

  /** Decoding an escaped character followed by more escaped text. */
  lemma UnescapeStep(x: char, rest: string)
    ensures Unescape(EscapeChar(x) + rest) == [x] + Unescape(rest)
  {
    var e := EscapeChar(x);
    var t := e + rest;
    assert t[..|e|] == e && t[|e|..] == rest;
    if Special(x) {
      assert t[1] == e[1];
      if x != '&' { assert !(Amp <= t) by { assert Amp[1] != t[1]; } }
      if x != '<' && x != '&' { assert !(Lt <= t) by { assert Lt[1] != t[1]; } }
      if x == '"' || x == '\'' { assert !(Gt <= t) by { assert Gt[1] != t[1]; } }
      if x == '\'' { assert !(Quot <= t) by { assert Quot[1] != t[1]; } }
    } else {
      assert t[0] == x && t[1..] == rest;
    }
  }

  /** Round trip: the escape loses nothing. */
  lemma {:induction false} UnescapeEscape(s: string)
    ensures Unescape(EscapeHtml(s)) == s
  {
    EscapeHtmlIsCharwise(s);
    UnescapeEach(s);
  }

  lemma {:induction false} UnescapeEach(s: string)
    ensures Unescape(EscapeEach(s)) == s
  {
    if s != [] {
      UnescapeStep(s[0], EscapeEach(s[1..]));
      UnescapeEach(s[1..]);
      assert s == [s[0]] + s[1..];
    }
  }
}
