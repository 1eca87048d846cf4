/**
 How text becomes tokens: runs of letters and digits for Latin text, single characters and pairs
 for Chinese.  The Unicode classes and the normalisation before it are parameters.
 */
module Tokenizer {
  import opened Strings

  datatype Unicode = Unicode(letter: char -> bool, number: char -> bool, digit: char -> bool, punct: char -> bool,
                             han: char -> bool, normalize: string -> string)

  predicate Alphanumeric(u: Unicode, c: char) { u.letter(c) || u.number(c) }

  /** nonAlphaNumPattern.ReplaceAllString(text, " ") */
  function SpacedOut(u: Unicode, s: string): string {
    if s == "" then ""
    else if Alphanumeric(u, s[0]) then [s[0]] + SpacedOut(u, s[1..])
    else if |s| > 1 && !Alphanumeric(u, s[1]) then SpacedOut(u, s[1..])
    else " " + SpacedOut(u, s[1..])
  }

  /** The longest stretches without separators, as strings.Fields cuts them at white space. */
  function Fields(s: string, separator: char -> bool): (fields: seq<string>)
    ensures s != "" && !separator(s[0]) ==> fields != []
    ensures forall i :: 0 <= i < |fields| ==> fields[i] != "" && forall j :: 0 <= j < |fields[i]| ==> !separator(fields[i][j])
  {
    if s == "" then []
    else
      var rest := Fields(s[1..], separator);
      if separator(s[0]) then rest
      else if |s| > 1 && !separator(s[1]) then [[s[0]] + rest[0]] + rest[1..]
      else [[s[0]]] + rest
  }

  /** The first `n` fields, trimmed, without those of a single character. */
  function Longer(fields: seq<string>, n: nat): seq<string>
    requires n <= |fields|
  {
    if n == 0 then []
    else
      var field := TrimSpace(fields[n - 1]);
      Longer(fields, n - 1) + if |field| < 2 then [] else [field]
  }

  function LatinTokens(u: Unicode, text: string): seq<string> {
    var fields := Fields(SpacedOut(u, text), IsSpace);
    Longer(fields, |fields|)
  }

  method TokenizeLatin(u: Unicode, text: string) returns (out: seq<string>)
    ensures out == LatinTokens(u, text)
  {
    var fields := Fields(SpacedOut(u, text), IsSpace);
    out := [];
    for n := 0 to |fields|
      invariant out == Longer(fields, n)
    {
      var field := TrimSpace(fields[n]);
      if |field| < 2 {
        continue;
      }
      out := out + [field];
    }
  }

  predicate IsRune(u: Unicode, c: char) {
    !IsSpace(c) && !u.punct(c) && (u.letter(c) || u.digit(c) || u.han(c))
  }

  /** The first `n` characters that count. */
  function Runes(u: Unicode, text: string, n: nat): string
    requires n <= |text|
  {
    if n == 0 then "" else Runes(u, text, n - 1) + if IsRune(u, text[n - 1]) then [text[n - 1]] else ""
  }

  /** Each of the first `n` characters, followed by its pair with the next one. */
  function Grams(runes: string, n: nat): seq<string>
    requires n <= |runes|
  {
    if n == 0 then []
    else Grams(runes, n - 1) + [[runes[n - 1]]] + if n < |runes| then [[runes[n - 1], runes[n]]] else []
  }

  function ChineseTokens(u: Unicode, text: string): seq<string> {
    var runes := Runes(u, text, |text|);
    Grams(runes, |runes|)
  }

  method TokenizeChinese(u: Unicode, text: string) returns (out: seq<string>)
    ensures out == ChineseTokens(u, text)
  {
    var runes := "";
    for n := 0 to |text|
      invariant runes == Runes(u, text, n)
    {
      var r := text[n];
      if IsSpace(r) || u.punct(r) {
        continue;
      }
      if u.letter(r) || u.digit(r) || u.han(r) {
        runes := runes + [r];
      }
    }
    if |runes| == 0 {
      return [];
    }
    out := [];
    for n := 0 to |runes|
      invariant out == Grams(runes, n)
    {
      out := out + [[runes[n]]];
      if n + 1 < |runes| {
        out := out + [[runes[n], runes[n + 1]]];
      }
    }
  }

  /** The tokens of a text, by language. */
  function Tokens(u: Unicode, text: string, language: string): seq<string> {
    var normalized := u.normalize(text);
    if normalized == "" then []
    else if TrimSpace(language) == "zh" then ChineseTokens(u, normalized)
    else if TrimSpace(language) == "en" then LatinTokens(u, normalized)
    else if LatinTokens(u, normalized) != [] then LatinTokens(u, normalized)
    else ChineseTokens(u, normalized)
  }

  method Tokenize(u: Unicode, text: string, language: string) returns (tokens: seq<string>)
    ensures tokens == Tokens(u, text, language)
  {
    var normalized := u.normalize(text);
    if normalized == "" {
      return [];
    }
    var name := TrimSpace(language);
    if name == "zh" {
      tokens := TokenizeChinese(u, normalized);
    } else if name == "en" {
      tokens := TokenizeLatin(u, normalized);
    } else {
      tokens := TokenizeLatin(u, normalized);
      if |tokens| == 0 {
        tokens := TokenizeChinese(u, normalized);
      }
    }
  }

  // -------------------------------------------------------------------- what tokens look like

  predicate Blank(token: string) { TrimSpace(token) == "" }

  predicate Solid(s: string) { s != "" && forall i :: 0 <= i < |s| ==> !IsSpace(s[i]) }

  lemma SolidStays(s: string)
    requires Solid(s)
    ensures TrimSpace(s) == s && !Blank(s)
  {
    hide IsSpace;
  }

  lemma {:induction false} LongerAreFields(fields: seq<string>, n: nat)
    requires n <= |fields| && forall i :: 0 <= i < |fields| ==> Solid(fields[i])
    ensures forall t :: t in Longer(fields, n) ==> Solid(t) && |t| >= 2 && t in fields
  {
    hide Solid, TrimSpace;
    if n > 0 {
      LongerAreFields(fields, n - 1);
      SolidStays(fields[n - 1]);
    }
  }

  lemma {:induction false} RunesCount(u: Unicode, text: string, n: nat)
    requires n <= |text|
    ensures forall i :: 0 <= i < |Runes(u, text, n)| ==> IsRune(u, Runes(u, text, n)[i])
  {
    hide IsRune;
    if n > 0 {
      RunesCount(u, text, n - 1);
    }
  }

  /** The character at `i`, or its pair with the next one. */
  predicate GramAt(runes: string, i: nat, t: string)
    requires i < |runes|
  {
    t == [runes[i]] || (i + 1 < |runes| && t == [runes[i], runes[i + 1]])
  }

  /** The Chinese tokens are exactly the single characters and the adjacent pairs. */
  lemma {:induction false} GramsAre(runes: string, n: nat)
    requires n <= |runes|
    ensures forall t :: t in Grams(runes, n) <==> exists i :: 0 <= i < n && GramAt(runes, i, t)
    ensures |Grams(runes, n)| == if n == 0 then 0 else if n < |runes| then 2 * n else 2 * n - 1
  {
    if n > 0 {
      GramsAre(runes, n - 1);
      var more := [[runes[n - 1]]] + if n < |runes| then [[runes[n - 1], runes[n]]] else [];
      assert Grams(runes, n) == Grams(runes, n - 1) + more;
      assert more[0] == [runes[n - 1]] && (n < |runes| ==> more[1] == [runes[n - 1], runes[n]]);
      forall t ensures t in more <==> GramAt(runes, n - 1, t) {
      }
      hide Grams, GramAt;
    }
  }

  lemma LatinIsSolid(u: Unicode, text: string)
    ensures forall t :: t in LatinTokens(u, text) ==> Solid(t)
  {
    var fields := Fields(SpacedOut(u, text), IsSpace);
    assert forall i :: 0 <= i < |fields| ==> Solid(fields[i]) by {
      hide IsSpace, Longer, SpacedOut;
    }
    hide Solid, IsSpace, SpacedOut;
    LongerAreFields(fields, |fields|);
  }

  lemma ChineseIsSolid(u: Unicode, text: string)
    ensures forall t :: t in ChineseTokens(u, text) ==> Solid(t)
  {
    var runes := Runes(u, text, |text|);
    RunesCount(u, text, |text|);
    assert forall i :: 0 <= i < |runes| ==> !IsSpace(runes[i]);
    hide IsSpace, IsRune, Runes, Grams, GramAt, Solid;
    GramsAre(runes, |runes|);
    forall t | t in Grams(runes, |runes|) ensures Solid(t) {
      var i :| 0 <= i < |runes| && GramAt(runes, i, t);
      GramIsSolid(runes, i, t);
    }
  }

  lemma GramIsSolid(runes: string, i: nat, t: string)
    requires i < |runes| && GramAt(runes, i, t) && forall j :: 0 <= j < |runes| ==> !IsSpace(runes[j])
    ensures Solid(t)
  {
    hide IsSpace;
  }

  /** No text has a blank token, in any language. */
  lemma NoTokenIsBlank(u: Unicode, text: string, language: string)
    ensures forall t :: t in Tokens(u, text, language) ==> !Blank(t)
  {
    var normalized := u.normalize(text);
    hide Blank, LatinTokens, ChineseTokens, Solid, TrimSpace;
    LatinIsSolid(u, normalized);
    ChineseIsSolid(u, normalized);
    forall t | t in Tokens(u, text, language) ensures !Blank(t) {
      SolidStays(t);
    }
  }

  /** Where letters and digits are no white space, the Latin fields are the longest alphanumeric
      stretches of the text. */
  lemma {:induction false} FieldsAreRuns(u: Unicode, s: string)
    requires forall c :: Alphanumeric(u, c) ==> !IsSpace(c)
    ensures Fields(SpacedOut(u, s), IsSpace) == Fields(s, c => !Alphanumeric(u, c))
  {
    if s != "" {
      FieldsAreRuns(u, s[1..]);
      SpacedHead(u, s[1..]);
    }
  }

  /** Spacing out keeps an alphanumeric first character and puts a space for any other. */
  lemma {:induction false} SpacedHead(u: Unicode, s: string)
    ensures s == "" <==> SpacedOut(u, s) == ""
    ensures s != "" ==> SpacedOut(u, s)[0] == if Alphanumeric(u, s[0]) then s[0] else ' '
  {
    if s != "" {
      SpacedHead(u, s[1..]);
    }
  }

  // --------------------------------------------------------------- which tokens a text has

  /** How the first character joins the fields of the rest. */
  function WithFirst(c: char, joins: bool, separates: bool, rest: seq<string>): seq<string> {
    if separates then rest
    else if joins && rest != [] then [[c] + rest[0]] + rest[1..]
    else [[c]] + rest
  }

  lemma FieldsStep(s: string, separator: char -> bool)
    requires s != ""
    ensures Fields(s, separator) == WithFirst(s[0], |s| > 1 && !separator(s[1]), separator(s[0]), Fields(s[1..], separator))
    ensures |s| > 1 && !separator(s[1]) ==> Fields(s[1..], separator) != []
  {
  }

  lemma WithFirstConcat(c: char, joins: bool, separates: bool, rest: seq<string>, more: seq<string>)
    requires joins ==> rest != []
    ensures WithFirst(c, joins, separates, rest + more) == WithFirst(c, joins, separates, rest) + more
  {
    if joins {
      assert (rest + more)[0] == rest[0] && (rest + more)[1..] == rest[1..] + more;
    }
  }

  /** The fields of a text are those before and those after any separator. */
  lemma {:induction false} FieldsSplit(a: string, c: char, b: string, separator: char -> bool)
    requires separator(c)
    ensures Fields(a + [c] + b, separator) == Fields(a, separator) + Fields(b, separator)
  {
    var s := a + [c] + b;
    FieldsStep(s, separator);
    if a == "" {
      assert s[1..] == b && s[0] == c && Fields(a, separator) == [];
      hide Fields;
    } else {
      assert s[1..] == a[1..] + [c] + b && s[0] == a[0];
      assert |s| > 1 && !separator(s[1]) <==> |a| > 1 && !separator(a[1]);
      FieldsStep(a, separator);
      hide Fields, WithFirst;
      FieldsSplit(a[1..], c, b, separator);
      WithFirstConcat(a[0], |a| > 1 && !separator(a[1]), separator(a[0]), Fields(a[1..], separator), Fields(b, separator));
    }
  }

  /** A text without separators is one field. */
  lemma {:induction false} FieldsOfOne(s: string, separator: char -> bool)
    requires s != "" && forall i :: 0 <= i < |s| ==> !separator(s[i])
    ensures Fields(s, separator) == [s]
  {
    if |s| == 1 {
      assert s[1..] == "" && s == [s[0]];
    } else {
      FieldsOfOne(s[1..], separator);
      assert s == [s[0]] + s[1..];
    }
  }

  /** All the fields, trimmed, without those of a single character. */
  function Kept(fields: seq<string>): seq<string> { Longer(fields, |fields|) }

  lemma KeptNext(fields: seq<string>, field: string)
    ensures Kept(fields + [field]) == Kept(fields) + if |TrimSpace(field)| < 2 then [] else [TrimSpace(field)]
  {
    LongerPrefix(fields, [field], |fields|);
    hide TrimSpace;
  }

  lemma {:induction false} KeptConcat(xs: seq<string>, ys: seq<string>)
    ensures Kept(xs + ys) == Kept(xs) + Kept(ys)
    decreases |ys|
  {
    if ys == [] {
      assert xs + ys == xs && Kept(ys) == [];
    } else {
      var init, last := ys[..|ys| - 1], ys[|ys| - 1];
      assert (xs + init) + [last] == xs + ys && init + [last] == ys;
      hide *;
      KeptConcat(xs, init);
      KeptNext(xs + init, last);
      KeptNext(init, last);
    }
  }

  lemma {:induction false} LongerPrefix(xs: seq<string>, ys: seq<string>, n: nat)
    requires n <= |xs|
    ensures Longer(xs + ys, n) == Longer(xs, n)
  {
    hide TrimSpace;
    if n > 0 {
      LongerPrefix(xs, ys, n - 1);
    }
  }

  function Separator(u: Unicode): char -> bool { c => !Alphanumeric(u, c) }

  lemma LatinIs(u: Unicode, s: string)
    requires forall x :: Alphanumeric(u, x) ==> !IsSpace(x)
    ensures LatinTokens(u, s) == Kept(Fields(s, Separator(u)))
  {
    FieldsAreRuns(u, s);
    assert Fields(s, c => !Alphanumeric(u, c)) == Fields(s, Separator(u));
    hide Fields, Longer, SpacedOut, IsSpace, Alphanumeric;
  }

  lemma IsSeparator(u: Unicode, c: char)
    ensures Separator(u)(c) == !Alphanumeric(u, c)
  {
  }

  /** Latin text is cut at every character that is neither letter nor digit ... */
  lemma LatinSplits(u: Unicode, a: string, c: char, b: string)
    requires (forall x :: Alphanumeric(u, x) ==> !IsSpace(x)) && !Alphanumeric(u, c)
    ensures LatinTokens(u, a + [c] + b) == LatinTokens(u, a) + LatinTokens(u, b)
  {
    hide *;
    IsSeparator(u, c);
    LatinIs(u, a + [c] + b);
    LatinIs(u, a);
    LatinIs(u, b);
    FieldsSplit(a, c, b, Separator(u));
    KeptConcat(Fields(a, Separator(u)), Fields(b, Separator(u)));
  }

  /** ... and a stretch of letters and digits is one token, if it has at least two of them. */
  lemma LatinWord(u: Unicode, s: string)
    requires (forall x :: Alphanumeric(u, x) ==> !IsSpace(x)) && forall i :: 0 <= i < |s| ==> Alphanumeric(u, s[i])
    ensures LatinTokens(u, s) == if |s| < 2 then [] else [s]
  {
    var sep := Separator(u);
    LatinIs(u, s);
    assert forall i :: 0 <= i < |s| ==> !sep(s[i]);
    if s == "" {
      hide IsSpace;
    } else {
      FieldsOfOne(s, sep);
      UntrimmedWord(s);
      hide Fields, SpacedOut, IsSpace, TrimSpace, LatinTokens;
      assert Longer([s], 0) == [];
    }
  }

  lemma UntrimmedWord(s: string)
    requires forall i :: 0 <= i < |s| ==> !IsSpace(s[i])
    ensures TrimSpace(s) == s
  {
    hide IsSpace;
  }

  /** The Chinese tokens in order: each character that counts, followed by its pair with the next. */
  lemma {:induction false} GramsInOrder(runes: string, n: nat)
    requires n <= |runes|
    ensures |Grams(runes, n)| == if n == 0 then 0 else if n < |runes| then 2 * n else 2 * n - 1
    ensures forall i :: 0 <= i < n ==> Grams(runes, n)[2 * i] == [runes[i]]
    ensures forall i :: 0 <= i < n && i + 1 < |runes| ==> Grams(runes, n)[2 * i + 1] == [runes[i], runes[i + 1]]
  {
    if n > 0 {
      GramsInOrder(runes, n - 1);
    }
  }

  /** What counts is cut out of the text in order, character by character. */
  lemma {:induction false} RunesConcat(u: Unicode, a: string, b: string, n: nat)
    requires n <= |b|
    ensures Runes(u, a + b, |a| + n) == Runes(u, a, |a|) + Runes(u, b, n)
  {
    hide IsRune;
    if n == 0 {
      RunesPrefix(u, a, b, |a|);
    } else {
      RunesConcat(u, a, b, n - 1);
      assert (a + b)[|a| + n - 1] == b[n - 1];
    }
  }

  lemma {:induction false} RunesPrefix(u: Unicode, a: string, b: string, n: nat)
    requires n <= |a|
    ensures Runes(u, a + b, n) == Runes(u, a, n)
  {
    hide IsRune;
    if n > 0 {
      RunesPrefix(u, a, b, n - 1);
    }
  }

  lemma {:induction false} RunesAre(u: Unicode, text: string, n: nat)
    requires n <= |text|
    ensures forall c :: c in Runes(u, text, n) <==> exists i :: 0 <= i < n && text[i] == c && IsRune(u, c)
  {
    hide IsRune;
    if n > 0 {
      RunesAre(u, text, n - 1);
    }
  }

  /** By language: "zh" gives the single characters that are letters, digits or Han and no punctuation, and pairs
      of them; "en" gives words of at least two characters; any other language words, or failing that characters. */
  lemma TokensByLanguage(u: Unicode, text: string, language: string)
    requires forall x :: Alphanumeric(u, x) ==> !IsSpace(x)
    ensures var s, tokens := u.normalize(text), Tokens(u, text, language);
      && (TrimSpace(language) == "zh" ==>
            && (forall c :: [c] in tokens <==> c in s && !IsSpace(c) && !u.punct(c) && (u.letter(c) || u.digit(c) || u.han(c)))
            && (forall t :: t in tokens ==> 1 <= |t| <= 2))
      && (TrimSpace(language) == "en" ==> forall t :: t in tokens ==> |t| >= 2 && forall i :: 0 <= i < |t| ==> Alphanumeric(u, t[i]))
      && (TrimSpace(language) != "zh" ==>
            Tokens(u, text, "en") != [] ==> tokens == Tokens(u, text, "en"))
      && (TrimSpace(language) != "zh" && TrimSpace(language) != "en" && Tokens(u, text, "en") == [] ==> tokens == Tokens(u, text, "zh"))
  {
    var s := u.normalize(text);
    TokensAre(u, text, language);
    TokensAre(u, text, "zh");
    TokensAre(u, text, "en");
    Named("zh");
    Named("en");
    hide *;
    ChineseShapes(u, s);
    LatinShapes(u, s);
  }

  lemma TokensAre(u: Unicode, text: string, language: string)
    ensures var s, name := u.normalize(text), TrimSpace(language);
      && (name == "zh" ==> Tokens(u, text, language) == ChineseTokens(u, s))
      && (name == "en" ==> Tokens(u, text, language) == LatinTokens(u, s))
      && (name != "zh" && name != "en" ==>
            Tokens(u, text, language) == if LatinTokens(u, s) != [] then LatinTokens(u, s) else ChineseTokens(u, s))
  {
    assert LatinTokens(u, "") == [] && ChineseTokens(u, "") == [];
    hide TrimSpace, LatinTokens, ChineseTokens;
  }

  lemma LetterIsNoSpace(c: char)
    requires 'a' <= c <= 'z'
    ensures !IsSpace(c)
  {
  }

  lemma Named(name: string)
    requires name == "zh" || name == "en"
    ensures TrimSpace(name) == name
  {
    forall i | 0 <= i < |name| ensures !IsSpace(name[i]) {
      LetterIsNoSpace(name[i]);
    }
    hide IsSpace, TrimSpace;
    UntrimmedWord(name);
  }

  lemma ChineseShapes(u: Unicode, s: string)
    ensures forall c :: [c] in ChineseTokens(u, s) <==> c in s && !IsSpace(c) && !u.punct(c) && (u.letter(c) || u.digit(c) || u.han(c))
    ensures forall t :: t in ChineseTokens(u, s) ==> 1 <= |t| <= 2
  {
    var runes := Runes(u, s, |s|);
    RunesAre(u, s, |s|);
    GramsAre(runes, |runes|);
    hide Runes, Grams, IsSpace;
    forall c ensures [c] in ChineseTokens(u, s) <==> c in s && IsRune(u, c) {
      if c in runes {
        var i :| 0 <= i < |runes| && runes[i] == c;
        assert GramAt(runes, i, [c]);
      }
    }
  }

  lemma LatinShapes(u: Unicode, s: string)
    requires forall x :: Alphanumeric(u, x) ==> !IsSpace(x)
    ensures forall t :: t in LatinTokens(u, s) ==> |t| >= 2 && forall i :: 0 <= i < |t| ==> Alphanumeric(u, t[i])
  {
    LatinIs(u, s);
    var sep := Separator(u);
    var fields := Fields(s, sep);
    FieldShapes(u, s, fields);
    hide *;
    LongerAre(fields, |fields|);
  }

  lemma FieldShapes(u: Unicode, s: string, fields: seq<string>)
    requires (forall x :: Alphanumeric(u, x) ==> !IsSpace(x)) && fields == Fields(s, Separator(u))
    ensures forall t :: t in fields ==> TrimSpace(t) == t && forall i :: 0 <= i < |t| ==> Alphanumeric(u, t[i])
  {
    assert forall i :: 0 <= i < |fields| ==> forall j :: 0 <= j < |fields[i]| ==> !Separator(u)(fields[i][j]);
    hide Fields, IsSpace, TrimSpace;
    forall t | t in fields ensures TrimSpace(t) == t && forall i :: 0 <= i < |t| ==> Alphanumeric(u, t[i]) {
      var k :| 0 <= k < |fields| && fields[k] == t;
      forall i | 0 <= i < |t| ensures Alphanumeric(u, t[i]) {
        assert !Separator(u)(fields[k][i]);
      }
      UntrimmedWord(t);
    }
  }

  lemma {:induction false} LongerAre(fields: seq<string>, n: nat)
    requires n <= |fields| && forall t :: t in fields ==> TrimSpace(t) == t
    ensures forall t :: t in Longer(fields, n) ==> |t| >= 2 && t in fields
  {
    hide TrimSpace;
    if n > 0 {
      LongerAre(fields, n - 1);
    }
  }
}
