/** `escapeHtml`, written identically in frontend/js/utils.js and frontend/js/management.js: a
    falsy input gives the empty string, anything else goes through five global replacements,
    `&` first. */
module HtmlEscape {
  import opened Wrappers

  /** `s.replace(/c/g, rep)` for a one-character pattern. */
  function ReplaceAll(s: string, c: char, rep: string): (r: string)
    ensures c !in rep ==> c !in r
    decreases |s|
  {
    if s == [] then []
    else (if s[0] == c then rep else [s[0]]) + ReplaceAll(s[1..], c, rep)
  }

  /** The chain of replacements, in the order the source writes them. */
  function ReplaceChain(s: string): string {
    var s1 := ReplaceAll(s, '&', "&amp;");
    var s2 := ReplaceAll(s1, '<', "&lt;");
    var s3 := ReplaceAll(s2, '>', "&gt;");
    var s4 := ReplaceAll(s3, '"', "&quot;");
    ReplaceAll(s4, '\'', "&#039;")
  }

  /** `escapeHtml(unsafe)`; a missing, `null` or empty input is falsy. */
  function EscapeHtml(unsafe: Option<string>): (r: string)
    ensures unsafe.None? || unsafe == Some("") ==> r == ""
  {
    if unsafe.None? || unsafe.value == "" then "" else ReplaceChain(unsafe.value)
  }

  predicate Special(c: char) {
    c == '&' || c == '<' || c == '>' || c == '"' || c == '\''
  }

  /** The entity each special character stands for; every other character stands for itself. */
  function EscapeChar(c: char): string {
    match c
    case '&' => "&amp;"
    case '<' => "&lt;"
    case '>' => "&gt;"
    case '"' => "&quot;"
    case '\'' => "&#039;"
    case _ => [c]
  }

  /** The reference: every character replaced independently by its entity. */
  function EscapeEach(s: string): string
    decreases |s|
  {
    if s == [] then [] else EscapeChar(s[0]) + EscapeEach(s[1..])
  }

  /** Decoding of the five entities, left to right; everything else is copied. */
  function Unescape(t: string): string
    decreases |t|
  {
    if t == [] then []
    else if |t| >= 5 && t[..5] == "&amp;" then "&" + Unescape(t[5..])
    else if |t| >= 4 && t[..4] == "&lt;" then "<" + Unescape(t[4..])
    else if |t| >= 4 && t[..4] == "&gt;" then ">" + Unescape(t[4..])
    else if |t| >= 6 && t[..6] == "&quot;" then "\"" + Unescape(t[6..])
    else if |t| >= 6 && t[..6] == "&#039;" then "'" + Unescape(t[6..])
    else [t[0]] + Unescape(t[1..])
  }

  // ---------------------------------------------------------------------------------------
  // Properties

  lemma {:induction false} ReplaceAllAppend(a: string, b: string, c: char, rep: string)
    ensures ReplaceAll(a + b, c, rep) == ReplaceAll(a, c, rep) + ReplaceAll(b, c, rep)
    decreases |a|
  {
    if a == [] {
      assert a + b == b;
    } else {
      assert (a + b)[0] == a[0] && (a + b)[1..] == a[1..] + b;
      ReplaceAllAppend(a[1..], b, c, rep);
    }
  }

  lemma {:induction false} ReplaceAllAbsent(s: string, c: char, rep: string)
    requires c !in s
    ensures ReplaceAll(s, c, rep) == s
    decreases |s|
  {
    if s != [] {
      ReplaceAllAbsent(s[1..], c, rep);
      assert [s[0]] + s[1..] == s;
    }
  }

  lemma ReplaceOne(x: char, c: char, rep: string)
    ensures ReplaceAll([x], c, rep) == if x == c then rep else [x]
  {
    assert [x][1..] == [];
  }

  lemma ReplaceChainAppend(a: string, b: string)
    ensures ReplaceChain(a + b) == ReplaceChain(a) + ReplaceChain(b)
  {
    var a1, b1 := ReplaceAll(a, '&', "&amp;"), ReplaceAll(b, '&', "&amp;");
    ReplaceAllAppend(a, b, '&', "&amp;");
    var a2, b2 := ReplaceAll(a1, '<', "&lt;"), ReplaceAll(b1, '<', "&lt;");
    ReplaceAllAppend(a1, b1, '<', "&lt;");
    var a3, b3 := ReplaceAll(a2, '>', "&gt;"), ReplaceAll(b2, '>', "&gt;");
    ReplaceAllAppend(a2, b2, '>', "&gt;");
    var a4, b4 := ReplaceAll(a3, '"', "&quot;"), ReplaceAll(b3, '"', "&quot;");
    ReplaceAllAppend(a3, b3, '"', "&quot;");
    ReplaceAllAppend(a4, b4, '\'', "&#039;");
  }

  // The chain from its second, third, fourth and fifth replacement on.
  function FromLt(s: string): string {
    FromGt(ReplaceAll(s, '<', "&lt;"))
  }

  function FromGt(s: string): string {
    FromQuot(ReplaceAll(s, '>', "&gt;"))
  }

  function FromQuot(s: string): string {
    FromApos(ReplaceAll(s, '"', "&quot;"))
  }

  function FromApos(s: string): string {
    ReplaceAll(s, '\'', "&#039;")
  }

  lemma FromLtAbsent(e: string)
    requires '<' !in e && '>' !in e && '"' !in e && '\'' !in e
    ensures FromLt(e) == e
  {
    ReplaceAllAbsent(e, '<', "&lt;");
    FromGtAbsent(e);
  }

  lemma FromGtAbsent(e: string)
    requires '>' !in e && '"' !in e && '\'' !in e
    ensures FromGt(e) == e
  {
    ReplaceAllAbsent(e, '>', "&gt;");
    FromQuotAbsent(e);
  }

  lemma FromQuotAbsent(e: string)
    requires '"' !in e && '\'' !in e
    ensures FromQuot(e) == e
  {
    ReplaceAllAbsent(e, '"', "&quot;");
    ReplaceAllAbsent(e, '\'', "&#039;");
  }

  /** A single character goes through the chain to exactly its entity: no entity holds a
      character a later replacement looks for, and `&` is replaced before any entity exists. */
  lemma ReplaceChainOfChar(x: char)
    ensures ReplaceChain([x]) == EscapeChar(x)
  {
    var s1 := ReplaceAll([x], '&', "&amp;");
    ChainFromLt([x]);
    ReplaceOne(x, '&', "&amp;");
    if x == '&' {
      AmpersandEntityKept();
    } else {
      FromLtOfChar(x);
    }
  }

  lemma AmpersandEntityKept()
    ensures FromLt("&amp;") == "&amp;"
  {
    FromLtAbsent("&amp;");
  }

  lemma ChainFromLt(s: string)
    ensures ReplaceChain(s) == FromLt(ReplaceAll(s, '&', "&amp;"))
  {
  }

  lemma FromLtOfChar(x: char)
    requires x != '&'
    ensures FromLt([x]) == EscapeChar(x)
  {
    var s2 := ReplaceAll([x], '<', "&lt;");
    ReplaceOne(x, '<', "&lt;");
    if x == '<' {
      FromGtAbsent(s2);
    } else {
      FromGtOfChar(x);
    }
  }

  lemma FromGtOfChar(x: char)
    requires x != '&' && x != '<'
    ensures FromGt([x]) == EscapeChar(x)
  {
    var s3 := ReplaceAll([x], '>', "&gt;");
    ReplaceOne(x, '>', "&gt;");
    if x == '>' {
      FromQuotAbsent(s3);
    } else {
      FromQuotOfChar(x);
    }
  }

  lemma FromQuotOfChar(x: char)
    requires x != '&' && x != '<' && x != '>'
    ensures FromQuot([x]) == EscapeChar(x)
  {
    var s4 := ReplaceAll([x], '"', "&quot;");
    ReplaceOne(x, '"', "&quot;");
    if x == '"' {
      ReplaceAllAbsent(s4, '\'', "&#039;");
    } else {
      ReplaceOne(x, '\'', "&#039;");
    }
  }

  /** The chain of global replacements is the same as escaping each character on its own. */
  lemma {:induction false} ChainIsPerCharacter(s: string)
    ensures ReplaceChain(s) == EscapeEach(s)
    decreases |s|
  {
    if s != [] {
      assert s == [s[0]] + s[1..];
      ReplaceChainAppend([s[0]], s[1..]);
      ReplaceChainOfChar(s[0]);
      ChainIsPerCharacter(s[1..]);
    }
  }

  /** A non-empty input escapes character by character. */
  lemma EscapeHtmlIsPerCharacter(s: string)
    requires s != ""
    ensures EscapeHtml(Some(s)) == EscapeEach(s)
  {
    ChainIsPerCharacter(s);
  }

  lemma {:induction false} EscapeEachNoRaw(s: string)
    ensures var r := EscapeEach(s);
      '<' !in r && '>' !in r && '"' !in r && '\'' !in r
    decreases |s|
  {
    if s != [] {
      EscapeEachNoRaw(s[1..]);
      EscapeCharNoRaw(s[0]);
      var e, r := EscapeChar(s[0]), EscapeEach(s[1..]);
      assert EscapeEach(s) == e + r;
      assert forall c :: c in e + r ==> c in e || c in r;
    }
  }

  lemma EscapeCharNoRaw(x: char)
    ensures var e := EscapeChar(x);
      '<' !in e && '>' !in e && '"' !in e && '\'' !in e
  {
  }

  /** The output never holds a raw `<`, `>`, `"` or `'`. */
  lemma NoRawSpecials(unsafe: Option<string>)
    ensures var r := EscapeHtml(unsafe);
      '<' !in r && '>' !in r && '"' !in r && '\'' !in r
  {
    if unsafe.Some? && unsafe.value != "" {
      ChainIsPerCharacter(unsafe.value);
      EscapeEachNoRaw(unsafe.value);
    }
  }

  /** A string without special characters comes back unchanged. */
  lemma {:induction false} PlainTextUnchanged(s: string)
    requires forall i :: 0 <= i < |s| ==> !Special(s[i])
    ensures EscapeEach(s) == s
    decreases |s|
  {
    if s != [] {
      PlainTextUnchanged(s[1..]);
      assert [s[0]] + s[1..] == s;
    }
  }

  lemma UnescapeOne(x: char, rest: string)
    ensures Unescape(EscapeChar(x) + rest) == [x] + Unescape(rest)
  {
    if x == '&' {
      UnescapeAmp(rest);
    } else if x == '<' {
      UnescapeLt(rest);
    } else if x == '>' {
      UnescapeGt(rest);
    } else if x == '"' {
      UnescapeQuot(rest);
    } else if x == '\'' {
      UnescapeApos(rest);
    } else {
      UnescapePlain(x, rest);
    }
  }

  lemma UnescapeAmp(rest: string)
    ensures Unescape("&amp;" + rest) == "&" + Unescape(rest)
  {
    var t := "&amp;" + rest;
    assert t[..5] == "&amp;" && t[5..] == rest;
  }

  lemma UnescapeLt(rest: string)
    ensures Unescape("&lt;" + rest) == "<" + Unescape(rest)
  {
    var t := "&lt;" + rest;
    assert |t| >= 5 ==> t[..5][1] == 'l';
    assert t[..4] == "&lt;" && t[4..] == rest;
  }

  lemma UnescapeGt(rest: string)
    ensures Unescape("&gt;" + rest) == ">" + Unescape(rest)
  {
    var t := "&gt;" + rest;
    assert |t| >= 5 ==> t[..5][1] == 'g';
    assert t[..4][1] == 'g';
    assert t[..4] == "&gt;" && t[4..] == rest;
  }

  lemma UnescapeQuot(rest: string)
    ensures Unescape("&quot;" + rest) == "\"" + Unescape(rest)
  {
    var t := "&quot;" + rest;
    assert t[..5][1] == 'q' && t[..4][1] == 'q';
    assert t[..6] == "&quot;" && t[6..] == rest;
  }

  lemma UnescapeApos(rest: string)
    ensures Unescape("&#039;" + rest) == "'" + Unescape(rest)
  {
    var t := "&#039;" + rest;
    assert t[..5][1] == '#' && t[..4][1] == '#' && t[..6][1] == '#';
    assert t[..6] == "&#039;" && t[6..] == rest;
  }

  lemma UnescapePlain(x: char, rest: string)
    requires !Special(x)
    ensures Unescape([x] + rest) == [x] + Unescape(rest)
  {
    var t := [x] + rest;
    assert t[0] == x && t[1..] == rest;
    assert |t| >= 4 ==> t[..4][0] == x;
    assert |t| >= 5 ==> t[..5][0] == x;
    assert |t| >= 6 ==> t[..6][0] == x;
  }

  /** Escaping loses nothing: decoding the five entities gives back the input. */
  lemma {:induction false} UnescapeEscape(s: string)
    ensures Unescape(EscapeEach(s)) == s
    decreases |s|
  {
    if s != [] {
      UnescapeOne(s[0], EscapeEach(s[1..]));
      UnescapeEscape(s[1..]);
      assert [s[0]] + s[1..] == s;
    }
  }

  /** Why `&` goes first: replacing it last would escape the ampersands of the entities already
      written, and `<` would come out as `&amp;lt;`. */
  lemma AmpersandFirst(x: char)
    requires x == '<'
    ensures EscapeHtml(Some([x])) == "&lt;"
    ensures ReplaceAll(ReplaceAll([x], '<', "&lt;"), '&', "&amp;") == "&amp;lt;"
  {
    ReplaceChainOfChar(x);
    ReplaceOne(x, '<', "&lt;");
    AmpersandOfEntity();
  }

  lemma AmpersandOfEntity()
    ensures ReplaceAll("&lt;", '&', "&amp;") == "&amp;lt;"
  {
    assert "&lt;" == "&" + "lt;";
    ReplaceAllAppend("&", "lt;", '&', "&amp;");
    ReplaceOne('&', '&', "&amp;");
    ReplaceAllAbsent("lt;", '&', "&amp;");
  }
}
