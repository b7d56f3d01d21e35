/**
 Escaping user-supplied text for HTML mail: five replacements over the whole string, one after
 the other.
 */
module HtmlEscape {

  // Every occurrence of a character replaced.
  function Replace(s: string, c: char, entity: string): string {
    if s == [] then [] else (if s[0] == c then entity else [s[0]]) + Replace(s[1..], c, entity)
  }

  function EscapeHtml(value: string): string {
    Replace(Replace(Replace(Replace(Replace(value, '&', "&amp;"), '<', "&lt;"), '>', "&gt;"), '\"', "&quot;"), '\'', "&#39;")
  }

  // What each character becomes in a single pass.
  function Entity(c: char): string {
    if c == '&' then "&amp;"
    else if c == '<' then "&lt;"
    else if c == '>' then "&gt;"
    else if c == '\"' then "&quot;"
    else if c == '\'' then "&#39;"
    else [c]
  }

  function OnePass(s: string): string {
    if s == [] then [] else Entity(s[0]) + OnePass(s[1..])
  }

  lemma {:induction false} ReplaceConcat(s: string, t: string, c: char, entity: string)
    ensures Replace(s + t, c, entity) == Replace(s, c, entity) + Replace(t, c, entity)
  {
    if s == [] {
      assert s + t == t;
    } else {
      assert (s + t)[1..] == s[1..] + t;
      ReplaceConcat(s[1..], t, c, entity);
    }
  }

  lemma {:induction false} ReplaceAbsent(s: string, c: char, entity: string)
    requires c !in s
    ensures Replace(s, c, entity) == s
  {
    if s != [] {
      ReplaceAbsent(s[1..], c, entity);
    }
  }

  lemma EscapeConcat(s: string, t: string)
    ensures EscapeHtml(s + t) == EscapeHtml(s) + EscapeHtml(t)
  {
    ReplaceConcat(s, t, '&', "&amp;");
    var s1, t1 := Replace(s, '&', "&amp;"), Replace(t, '&', "&amp;");
    ReplaceConcat(s1, t1, '<', "&lt;");
    var s2, t2 := Replace(s1, '<', "&lt;"), Replace(t1, '<', "&lt;");
    ReplaceConcat(s2, t2, '>', "&gt;");
    var s3, t3 := Replace(s2, '>', "&gt;"), Replace(t2, '>', "&gt;");
    ReplaceConcat(s3, t3, '\"', "&quot;");
    ReplaceConcat(Replace(s3, '\"', "&quot;"), Replace(t3, '\"', "&quot;"), '\'', "&#39;");
  }

  lemma ReplaceOne(x: char, c: char, entity: string)
    ensures Replace([x], c, entity) == if x == c then entity else [x]
  {
    assert [x][1..] == [];
  }

  // The four later replacements leave a string without their characters alone.
  lemma Untouched(s: string)
    requires '<' !in s && '>' !in s && '\"' !in s && '\'' !in s
    ensures Replace(s, '<', "&lt;") == s && Replace(s, '>', "&gt;") == s
    ensures Replace(s, '\"', "&quot;") == s && Replace(s, '\'', "&#39;") == s
  {
    ReplaceAbsent(s, '<', "&lt;");
    ReplaceAbsent(s, '>', "&gt;");
    ReplaceAbsent(s, '\"', "&quot;");
    ReplaceAbsent(s, '\'', "&#39;");
  }

  lemma EscapeOne(c: char)
    ensures EscapeHtml([c]) == Entity(c)
  {
    ReplaceOne(c, '&', "&amp;");
    ReplaceOne(c, '<', "&lt;");
    ReplaceOne(c, '>', "&gt;");
    ReplaceOne(c, '\"', "&quot;");
    ReplaceOne(c, '\'', "&#39;");
    var e := Entity(c);
    if e != [c] {
      Untouched(e);
    }
  }

  // Each of the five characters becomes its entity, and every other character stays.
  lemma EscapeTable(c: char)
    ensures EscapeHtml([c]) ==
      match c
      case '&' => "&amp;"
      case '<' => "&lt;"
      case '>' => "&gt;"
      case '\"' => "&quot;"
      case '\'' => "&#39;"
      case _ => [c]
  {
    EscapeOne(c);
  }

  // The five replacements are one pass over the characters: none of them touches what an
  // earlier one put in.
  lemma {:induction false} EscapeIsOnePass(s: string)
    ensures EscapeHtml(s) == OnePass(s)
  {
    if s != [] {
      assert s == [s[0]] + s[1..];
      EscapeConcat([s[0]], s[1..]);
      EscapeOne(s[0]);
      EscapeIsOnePass(s[1..]);
    }
  }

  // ---------- Reading back ----------

  predicate StartsWith(s: string, prefix: string) {
    |prefix| <= |s| && s[..|prefix|] == prefix
  }

  predicate StartsEntity(s: string) {
    StartsWith(s, "&amp;") || StartsWith(s, "&lt;") || StartsWith(s, "&gt;") || StartsWith(s, "&quot;") || StartsWith(s, "&#39;")
  }

  function Unescape(s: string): string
    decreases |s|
  {
    if s == [] then []
    else if StartsWith(s, "&amp;") then ['&'] + Unescape(s[5..])
    else if StartsWith(s, "&lt;") then ['<'] + Unescape(s[4..])
    else if StartsWith(s, "&gt;") then ['>'] + Unescape(s[4..])
    else if StartsWith(s, "&quot;") then ['\"'] + Unescape(s[6..])
    else if StartsWith(s, "&#39;") then ['\''] + Unescape(s[5..])
    else [s[0]] + Unescape(s[1..])
  }

  lemma Differs(s: string, prefix: string)
    requires |s| > 0 && |prefix| > 1 && (s[0] != prefix[0] || (|s| > 1 && s[1] != prefix[1]))
    ensures !StartsWith(s, prefix)
  {
    if |prefix| <= |s| {
      assert s[..|prefix|][0] == s[0] && s[..|prefix|][1] == s[1];
    }
  }

  // An entity at the start is the one its first two characters tell.
  lemma UnescapeEntity(c: char, rest: string)
    ensures Unescape(Entity(c) + rest) == [c] + Unescape(rest)
  {
    var e := Entity(c);
    var s := e + rest;
    assert s[..|e|] == e && s[|e|..] == rest;
    assert s[0] == e[0] && (|e| > 1 ==> s[1] == e[1]);
    if c != '&' { Differs(s, "&amp;"); }
    if c != '<' { Differs(s, "&lt;"); }
    if c != '>' { Differs(s, "&gt;"); }
    if c != '\"' { Differs(s, "&quot;"); }
    if c != '\'' { Differs(s, "&#39;"); }
  }

  // Nothing is lost: the escaped text gives the original back.
  lemma {:induction false} UnescapeRecovers(s: string)
    ensures Unescape(EscapeHtml(s)) == s
  {
    EscapeIsOnePass(s);
    if s != [] {
      UnescapeEntity(s[0], OnePass(s[1..]));
      EscapeIsOnePass(s[1..]);
      UnescapeRecovers(s[1..]);
      assert s == [s[0]] + s[1..];
    }
  }

  // ---------- The output is inert ----------

  // None of the four characters, and no ampersand but at the start of an entity.
  predicate Inert(s: string) {
    && (forall i :: 0 <= i < |s| ==> s[i] !in {'<', '>', '\"', '\''})
    && (forall i :: 0 <= i < |s| && s[i] == '&' ==> StartsEntity(s[i..]))
  }

  lemma EntityInert(c: char, rest: string)
    requires Inert(rest)
    ensures Inert(Entity(c) + rest)
  {
    var e := Entity(c);
    var s := e + rest;
    forall i | 0 <= i < |s| && s[i] == '&'
      ensures StartsEntity(s[i..])
    {
      if i < |e| {
        assert i == 0 && s[i..] == s && s[..|e|] == e;
      } else {
        assert s[i..] == rest[i - |e|..];
      }
    }
  }

  lemma {:induction false} EscapedIsInert(s: string)
    ensures Inert(EscapeHtml(s))
    ensures '<' !in EscapeHtml(s) && '>' !in EscapeHtml(s) && '\"' !in EscapeHtml(s) && '\'' !in EscapeHtml(s)
  {
    EscapeIsOnePass(s);
    if s != [] {
      EscapedIsInert(s[1..]);
      EscapeIsOnePass(s[1..]);
      EntityInert(s[0], OnePass(s[1..]));
    }
  }
}
