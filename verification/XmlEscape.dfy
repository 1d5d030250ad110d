/** Escaping text for XML by five whole-string replacements, one after the other. */
module XmlEscape {
  import opened Wrappers

  /** Replaces every occurrence of a character by a text. */
  function Replace(s: string, from: char, to: string): string {
    if s == [] then [] else (if s[0] == from then to else [s[0]]) + Replace(s[1..], from, to)
  }

  function Escape(value: string): string {
    Replace(Replace(Replace(Replace(Replace(value, '&', "&amp;"), '<', "&lt;"), '>', "&gt;"), '\"', "&quot;"), '\'', "&apos;")
  }

  /** The predefined entity of a character, or the character itself. */
  function Entity(c: char): string {
    match c
    case '&' => "&amp;"
    case '<' => "&lt;"
    case '>' => "&gt;"
    case '\"' => "&quot;"
    case '\'' => "&apos;"
    case _ => [c]
  }

  /** The single pass: every character becomes its entity. */
  function EscapeEach(s: string): string {
    if s == [] then [] else Entity(s[0]) + EscapeEach(s[1..])
  }

  lemma {:induction false} ReplaceConcat(a: string, b: string, from: char, to: string)
    ensures Replace(a + b, from, to) == Replace(a, from, to) + Replace(b, from, to)
  {
    if a == [] {
      assert a + b == b;
    } else {
      assert (a + b)[1..] == a[1..] + b;
      ReplaceConcat(a[1..], b, from, to);
    }
  }

  /** A character of the text is not touched by a later replacement of another character. */
  lemma {:induction false} ReplaceAbsent(s: string, from: char, to: string)
    requires from !in s
    ensures Replace(s, from, to) == s
  {
    if s != [] {
      ReplaceAbsent(s[1..], from, to);
    }
  }

  lemma {:induction false} ReplaceChar(c: char, from: char, to: string)
    ensures Replace([c], from, to) == if c == from then to else [c]
  {
    assert [c][1..] == [];
  }

  /** Every pass works piece by piece, and so do the five together. */
  lemma {:induction false} EscapeConcat(a: string, b: string)
    ensures Escape(a + b) == Escape(a) + Escape(b)
  {
    ReplaceConcat(a, b, '&', "&amp;");
    var a1, b1 := Replace(a, '&', "&amp;"), Replace(b, '&', "&amp;");
    ReplaceConcat(a1, b1, '<', "&lt;");
    var a2, b2 := Replace(a1, '<', "&lt;"), Replace(b1, '<', "&lt;");
    ReplaceConcat(a2, b2, '>', "&gt;");
    var a3, b3 := Replace(a2, '>', "&gt;"), Replace(b2, '>', "&gt;");
    ReplaceConcat(a3, b3, '\"', "&quot;");
    ReplaceConcat(Replace(a3, '\"', "&quot;"), Replace(b3, '\"', "&quot;"), '\'', "&apos;");
  }

  /** The passes still to come, from the quote, the `>` and the `<` pass on. */
  function FromQuote(s: string): string {
    Replace(Replace(s, '\"', "&quot;"), '\'', "&apos;")
  }

  function FromGreater(s: string): string {
    FromQuote(Replace(s, '>', "&gt;"))
  }

  function FromLess(s: string): string {
    FromGreater(Replace(s, '<', "&lt;"))
  }

  ghost predicate Safe(s: string) {
    forall i :: 0 <= i < |s| ==> !Special(s[i])
  }

  /** A text without special characters passes the remaining passes unchanged. */
  lemma {:induction false} SafeIsKept(s: string)
    requires Safe(s)
    ensures Replace(s, '\'', "&apos;") == s
    ensures FromQuote(s) == s && FromGreater(s) == s && FromLess(s) == s
  {
    ReplaceAbsent(s, '<', "&lt;");
    ReplaceAbsent(s, '>', "&gt;");
    ReplaceAbsent(s, '\"', "&quot;");
    ReplaceAbsent(s, '\'', "&apos;");
  }

  /** Five passes over one character give its entity: no entity holds a character of a later pass, and
      ampersands, which every entity holds, are replaced first. */
  lemma {:induction false} EscapeChar(c: char)
    ensures Escape([c]) == Entity(c)
  {
    EntityIsSafe(c);
    SafeIsKept(Entity(c));
    ReplaceChar(c, '&', "&amp;");
    ReplaceChar(c, '<', "&lt;");
    ReplaceChar(c, '>', "&gt;");
    ReplaceChar(c, '\"', "&quot;");
    ReplaceChar(c, '\'', "&apos;");
    assert Escape([c]) == FromLess(if c == '&' then Entity(c) else [c]);
  }

  /** The five passes are one character-wise pass. */
  lemma {:induction false} PassesAreOnePass(s: string)
    ensures Escape(s) == EscapeEach(s)
  {
    if s == [] {
      assert Escape([]) == [];
    } else {
      assert s == [s[0]] + s[1..];
      EscapeConcat([s[0]], s[1..]);
      EscapeChar(s[0]);
      PassesAreOnePass(s[1..]);
    }
  }

  // ---------- safety and decoding ----------

  predicate Special(c: char) {
    c == '<' || c == '>' || c == '\"' || c == '\''
  }

  lemma {:induction false} EscapedIsSafe(s: string)
    ensures Safe(Escape(s))
  {
    PassesAreOnePass(s);
    EachIsSafe(s);
  }

  lemma {:induction false} EachIsSafe(s: string)
    ensures Safe(EscapeEach(s))
  {
    if s != [] {
      EachIsSafe(s[1..]);
      EntityIsSafe(s[0]);
    }
  }

  lemma EntityIsSafe(c: char)
    ensures Safe(Entity(c))
  {
  }

  predicate StartsWith(s: string, prefix: string) {
    |prefix| <= |s| && s[..|prefix|] == prefix
  }

  /** The character a text begins with once its leading entity is read, and the length read. A text
      that begins with an ampersand but no predefined entity is not well formed. */
  function ReadOne(s: string): (r: Option<(char, nat)>)
    requires s != []
    ensures r.Some? ==> 0 < r.value.1 <= |s|
  {
    if StartsWith(s, "&amp;") then Some(('&', 5))
    else if StartsWith(s, "&lt;") then Some(('<', 4))
    else if StartsWith(s, "&gt;") then Some(('>', 4))
    else if StartsWith(s, "&quot;") then Some(('\"', 6))
    else if StartsWith(s, "&apos;") then Some(('\'', 6))
    else if s[0] == '&' then None
    else Some((s[0], 1))
  }

  /** Reading text back, predefined entities included. */
  function Decode(s: string): Option<string> {
    if s == [] then Some([])
    else
      var one := ReadOne(s);
      if one.None? then None
      else
        var rest := Decode(s[one.value.1..]);
        if rest.None? then None else Some([one.value.0] + rest.value)
  }

  lemma {:induction false} ReadEntity(c: char, rest: string)
    ensures ReadOne(Entity(c) + rest) == Some((c, |Entity(c)|))
  {
    var s := Entity(c) + rest;
    assert s[..|Entity(c)|] == Entity(c);
    if c == '&' || !(Special(c)) {
      assert s[0] == Entity(c)[0];
    } else {
      assert s[1] == Entity(c)[1];
      assert s[2] == Entity(c)[2];
      assert |s| >= 4 && s[..4][1] == s[1];
      assert |s| >= 5 ==> s[..5][1] == s[1] && s[..5][2] == s[2];
      assert |s| >= 6 ==> s[..6][1] == s[1];
    }
  }

  /** Decoding an escaped text gives the text back. */
  lemma {:induction false} DecodeEscape(s: string)
    ensures Decode(Escape(s)) == Some(s)
  {
    PassesAreOnePass(s);
    DecodeEach(s);
  }

  lemma {:induction false} DecodeEach(s: string)
    ensures Decode(EscapeEach(s)) == Some(s)
  {
    if s != [] {
      var text, rest := EscapeEach(s), EscapeEach(s[1..]);
      ReadEntity(s[0], rest);
      assert text[|Entity(s[0])|..] == rest;
      DecodeEach(s[1..]);
      assert [s[0]] + s[1..] == s;
    }
  }

  /** Hence different texts are escaped differently. */
  lemma {:induction false} EscapeIsInjective(a: string, b: string)
    ensures Escape(a) == Escape(b) <==> a == b
  {
    DecodeEscape(a);
    DecodeEscape(b);
  }
}
