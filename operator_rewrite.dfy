/**
 * The comparison-operator rewrite of the list handler
 * (`queryStr.replace(/\b(gt|gte|lt|lte|in)\b/g, m => '$' + m)`), done on the
 * serialised filter text.
 *
 * `RewriteOperators` scans the text word by word, as the global regular
 * expression does.  `MatchAt` is the regular expression read declaratively:
 * a position where one of the five operator words starts and ends on word
 * boundaries.  `RewriteMarksMatches` proves the scan inserts a `$` before
 * exactly those positions and changes no other character.
 * `StringifyRewrite` then shows that, for a filter whose strings hold no
 * control characters, rewriting the text is the same as rewriting every key
 * and string value of the filter object and serialising that, so
 * `JSON.parse` gives back the object with `$`-operators.
 */
module OperatorRewrite {
  import opened Common
  import opened JsText

  const Operators: set<string> := {"gt", "gte", "lt", "lte", "in"}

  /** Where the word that starts at `i` ends: the first position from `i` on that holds no word character. */
  function WordEnd(s: string, i: nat): (e: nat)
    requires i <= |s|
    ensures i <= e <= |s|
    ensures e < |s| ==> !IsWordChar(s[e])
    ensures i < |s| && IsWordChar(s[i]) ==> i < e
    decreases |s| - i
  {
    if i < |s| && IsWordChar(s[i]) then WordEnd(s, i + 1) else i
  }

  /** The `$` the replacement puts in front of a word: present exactly for an operator. */
  function Sigil(w: string): string {
    if w in Operators then "$" else ""
  }

  /** The global replace: each maximal word that is an operator gets a `$` in front. */
  function RewriteOperators(s: string): (r: string)
    decreases |s|
  {
    if s == [] then []
    else if !IsWordChar(s[0]) then [s[0]] + RewriteOperators(s[1..])
    else
      var n := WordEnd(s, 0);
      Sigil(s[..n]) + s[..n] + RewriteOperators(s[n..])
  }

  // ---------------------------------------------------------------------
  // The regular expression, read declaratively
  // ---------------------------------------------------------------------

  /** The letters of `k` stand in `s` from position `i` on. */
  predicate Occurs(s: string, i: nat, k: string)
    decreases |k|
  {
    k == [] || (i < |s| && s[i] == k[0] && Occurs(s, i + 1, k[1..]))
  }

  /** Word `k` occurs at `i` and is followed by a word boundary. */
  predicate OperatorAt(s: string, i: nat, k: string) {
    i + |k| <= |s| && Occurs(s, i, k) && (i + |k| == |s| || !IsWordChar(s[i + |k|]))
  }

  /** `\b(gt|gte|lt|lte|in)\b` matches at position `i`. */
  predicate MatchAt(s: string, i: nat) {
    i < |s| && (i == 0 || !IsWordChar(s[i - 1]))
    && (OperatorAt(s, i, "gt") || OperatorAt(s, i, "gte") || OperatorAt(s, i, "lt")
        || OperatorAt(s, i, "lte") || OperatorAt(s, i, "in"))
  }

  /** The text from position `i` on, with `$` inserted before every match. */
  function Marked(s: string, i: nat): string
    decreases |s| - i
  {
    if i >= |s| then [] else (if MatchAt(s, i) then "$" else "") + [s[i]] + Marked(s, i + 1)
  }

  // ---------------------------------------------------------------------
  // The scan inserts `$` exactly at the matches
  // ---------------------------------------------------------------------

  /** Every character from `i` to the end of the word is a word character. */
  lemma {:induction false} WordEndChars(s: string, i: nat)
    requires i <= |s|
    ensures forall m :: i <= m < WordEnd(s, i) ==> IsWordChar(s[m])
    decreases |s| - i
  {
    if i < |s| && IsWordChar(s[i]) {
      WordEndChars(s, i + 1);
    }
  }

  /** A run of word characters from `i` to a boundary at `e` is the word at `i`. */
  lemma {:induction false} WordEndExact(s: string, i: nat, e: nat)
    requires i <= e <= |s|
    requires forall m :: i <= m < e ==> IsWordChar(s[m])
    requires e == |s| || !IsWordChar(s[e])
    ensures WordEnd(s, i) == e
    decreases e - i
  {
    if i < e {
      WordEndExact(s, i + 1, e);
    }
  }

  /** The first word of a suffix, read in the text the suffix comes from. */
  lemma WordEndOfSuffix(s: string, i: nat)
    requires i <= |s|
    ensures WordEnd(s[i..], 0) == WordEnd(s, i) - i
  {
    var t := s[i..];
    var e := WordEnd(s, i);
    WordEndChars(s, i);
    forall m | 0 <= m < e - i ensures IsWordChar(t[m]) {
      assert t[m] == s[i + m];
    }
    if e < |s| {
      assert t[e - i] == s[e];
    }
    WordEndExact(t, 0, e - i);
  }

  /** `k` occurs at `i` exactly when the slice of `s` there is `k`. */
  lemma {:induction false} OccursSlice(s: string, i: nat, k: string)
    requires i + |k| <= |s|
    ensures Occurs(s, i, k) <==> s[i..i + |k|] == k
    decreases |k|
  {
    if k != [] {
      OccursSlice(s, i + 1, k[1..]);
      assert s[i..i + |k|] == [s[i]] + s[i + 1..i + 1 + |k[1..]|];
      assert k == [k[0]] + k[1..];
    }
  }

  /** An operator matched at `i` spans the whole word that starts there. */
  lemma OperatorSpansWord(s: string, i: nat, k: string)
    requires k in Operators
    ensures OperatorAt(s, i, k) ==> WordEnd(s, i) == i + |k| && s[i..i + |k|] == k
  {
    if OperatorAt(s, i, k) {
      OccursSlice(s, i, k);
      assert forall j :: 0 <= j < |k| ==> IsWordChar(k[j]);
      forall m | i <= m < i + |k| ensures IsWordChar(s[m]) {
        assert s[m] == s[i..i + |k|][m - i];
      }
      WordEndExact(s, i, i + |k|);
    }
  }

  /** A match is a whole word that is an operator. */
  lemma MatchIsOperatorWord(s: string, i: nat)
    ensures MatchAt(s, i) ==> s[i..WordEnd(s, i)] in Operators
  {
    OperatorSpansWord(s, i, "gt");
    OperatorSpansWord(s, i, "gte");
    OperatorSpansWord(s, i, "lt");
    OperatorSpansWord(s, i, "lte");
    OperatorSpansWord(s, i, "in");
  }

  /** A whole word that is an operator, at a word boundary, is a match. */
  lemma OperatorWordMatches(s: string, i: nat)
    requires i < |s| && (i == 0 || !IsWordChar(s[i - 1]))
    ensures s[i..WordEnd(s, i)] in Operators ==> MatchAt(s, i)
  {
    var k := s[i..WordEnd(s, i)];
    if k in Operators {
      OccursSlice(s, i, k);
      assert OperatorAt(s, i, k);
    }
  }

  /** At a word boundary, the expression matches iff the whole word there is an operator. */
  lemma MatchAtWordStart(s: string, i: nat)
    requires i < |s| && (i == 0 || !IsWordChar(s[i - 1]))
    ensures MatchAt(s, i) <==> s[i..WordEnd(s, i)] in Operators
  {
    MatchIsOperatorWord(s, i);
    OperatorWordMatches(s, i);
  }

  /** A match at `i` begins with the operator's first letter. */
  lemma OperatorAtFirst(s: string, i: nat, k: string)
    requires k != []
    ensures OperatorAt(s, i, k) ==> s[i] == k[0]
  {
    if OperatorAt(s, i, k) {
      assert Occurs(s, i, k);
    }
  }

  /** Nothing matches at a non-word character. */
  lemma NoMatchAtNonWord(s: string, i: nat)
    requires i < |s| && !IsWordChar(s[i])
    ensures !MatchAt(s, i)
  {
    OperatorAtFirst(s, i, "gt");
    OperatorAtFirst(s, i, "gte");
    OperatorAtFirst(s, i, "lt");
    OperatorAtFirst(s, i, "lte");
    OperatorAtFirst(s, i, "in");
  }

  /** Nothing matches right after a word character. */
  lemma NoMatchAfterWordChar(s: string, j: nat)
    requires 1 <= j < |s| && IsWordChar(s[j - 1])
    ensures Marked(s, j) == [s[j]] + Marked(s, j + 1)
  {
  }

  /** Inside a word nothing matches, so the marked text is the word itself. */
  lemma {:induction false} MarkedInsideWord(s: string, j: nat, e: nat)
    requires 1 <= j <= e <= |s|
    requires forall m :: j - 1 <= m < e ==> IsWordChar(s[m])
    ensures Marked(s, j) == s[j..e] + Marked(s, e)
    decreases e - j
  {
    if j < e {
      NoMatchAfterWordChar(s, j);
      MarkedInsideWord(s, j + 1, e);
      assert s[j..e] == [s[j]] + s[j + 1..e];
    }
  }

  /** How the scan proceeds over a suffix that starts with a word character. */
  lemma RewriteAtWord(t: string)
    requires t != [] && IsWordChar(t[0])
    ensures var n := WordEnd(t, 0);
      RewriteOperators(t) == Sigil(t[..n]) + t[..n] + RewriteOperators(t[n..])
  {
  }

  /** The scan over a text whose first word is known to have length `n`. */
  lemma RewriteFirstWord(t: string, n: nat)
    requires 1 <= n <= |t|
    requires forall j :: 0 <= j < n ==> IsWordChar(t[j])
    requires n == |t| || !IsWordChar(t[n])
    ensures RewriteOperators(t) == Sigil(t[..n]) + t[..n] + RewriteOperators(t[n..])
  {
    WordEndExact(t, 0, n);
    RewriteAtWord(t);
  }

  /** The scan at a word that starts at `i`, read in `s` itself. */
  lemma RewriteWordAt(s: string, i: nat)
    requires i < |s| && IsWordChar(s[i])
    ensures var e := WordEnd(s, i);
      RewriteOperators(s[i..]) == Sigil(s[i..e]) + s[i..e] + RewriteOperators(s[e..])
  {
    var e := WordEnd(s, i);
    SuffixSlices(s, i, e);
    WordEndOfSuffix(s, i);
    RewriteAtWordParts(s[i..], e - i, s[i..e], s[e..]);
  }

  /** `RewriteAtWord` with the word and the rest named by the caller. */
  lemma RewriteAtWordParts(t: string, n: nat, w: string, rest: string)
    requires t != [] && IsWordChar(t[0])
    requires n == WordEnd(t, 0) && w == t[..n] && rest == t[n..]
    ensures RewriteOperators(t) == Sigil(w) + w + RewriteOperators(rest)
  {
    RewriteAtWord(t);
  }

  lemma SuffixSlices(s: string, i: nat, e: nat)
    requires i < |s| && i <= e <= |s|
    ensures s[i..][0] == s[i] && s[i..][..e - i] == s[i..e] && s[i..][e - i..] == s[e..]
  {
  }

  /** The scan past a non-word character at `i`. */
  lemma RewriteNonWordAt(s: string, i: nat)
    requires i < |s| && !IsWordChar(s[i])
    ensures RewriteOperators(s[i..]) == [s[i]] + RewriteOperators(s[i + 1..])
  {
    var t := s[i..];
    assert t[0] == s[i];
    assert t[1..] == s[i + 1..];
  }

  /** From any position not strictly inside a word, the scan and the declarative reading agree. */
  lemma {:induction false} RewriteSuffix(s: string, i: nat)
    requires i <= |s|
    requires i == |s| || !IsWordChar(s[i]) || i == 0 || !IsWordChar(s[i - 1])
    ensures RewriteOperators(s[i..]) == Marked(s, i)
    decreases |s| - i
  {
    if i < |s| {
      if !IsWordChar(s[i]) {
        NoMatchAtNonWord(s, i);
        RewriteNonWordAt(s, i);
        RewriteSuffix(s, i + 1);
      } else {
        WordStartSuffix(s, i);
      }
    }
  }

  /** One step of the marked text at the start of a word. */
  lemma MarkedAtWordStart(s: string, i: nat)
    requires i < |s| && (i == 0 || !IsWordChar(s[i - 1]))
    ensures Marked(s, i) == Sigil(s[i..WordEnd(s, i)]) + [s[i]] + Marked(s, i + 1)
  {
    MatchAtWordStart(s, i);
  }

  /** Putting the first character of a word back in front of the rest of it. */
  lemma WordRegroup(p: string, c: char, x: string, w: string, a: string, b: string, r: string)
    requires a == p + [c] + b && b == x + r && w == [c] + x
    ensures a == p + w + r
  {
  }

  /** The marked text over a whole word: the word, with a `$` in front if it is an operator. */
  lemma MarkedWord(s: string, i: nat)
    requires i < |s| && IsWordChar(s[i]) && (i == 0 || !IsWordChar(s[i - 1]))
    ensures var e := WordEnd(s, i); var w := s[i..e];
      Marked(s, i) == Sigil(w) + w + Marked(s, e)
  {
    var e := WordEnd(s, i);
    WordEndChars(s, i);
    MarkedAtWordStart(s, i);
    MarkedRun(s, i, e, Sigil(s[i..e]));
  }

  /** A run of word characters after a marked first character is copied as it is. */
  lemma MarkedRun(s: string, i: nat, e: nat, p: string)
    requires i < e <= |s|
    requires forall m :: i <= m < e ==> IsWordChar(s[m])
    requires Marked(s, i) == p + [s[i]] + Marked(s, i + 1)
    ensures Marked(s, i) == p + s[i..e] + Marked(s, e)
  {
    var w := s[i..e];
    assert w == [s[i]] + s[i + 1..e];
    MarkedInsideWord(s, i + 1, e);
    WordRegroup(p, s[i], s[i + 1..e], w, Marked(s, i), Marked(s, i + 1), Marked(s, e));
  }

  lemma {:induction false} WordStartSuffix(s: string, i: nat)
    requires i < |s| && IsWordChar(s[i]) && (i == 0 || !IsWordChar(s[i - 1]))
    ensures RewriteOperators(s[i..]) == Marked(s, i)
    decreases |s| - i, 0
  {
    var e := WordEnd(s, i);
    RewriteSuffix(s, e);
    RewriteWordAt(s, i);
    MarkedWord(s, i);
  }

  /**
   * The rewrite inserts `$` before every whole-word `gt`, `gte`, `lt`, `lte`
   * or `in`, wherever it stands, and keeps every character of the text, in
   * order.
   */
  lemma RewriteMarksMatches(s: string)
    ensures RewriteOperators(s) == Marked(s, 0)
  {
    assert s[0..] == s;
    RewriteSuffix(s, 0);
  }

  // ---------------------------------------------------------------------
  // The rewrite works piecewise across word boundaries
  // ---------------------------------------------------------------------

  /** Two texts that do not join inside a word are rewritten independently. */
  lemma {:induction false} RewriteAppend(a: string, b: string)
    requires a == [] || b == [] || !IsWordChar(a[|a| - 1]) || !IsWordChar(b[0])
    ensures RewriteOperators(a + b) == RewriteOperators(a) + RewriteOperators(b)
    decreases |a|
  {
    if a == [] {
      assert a + b == b;
    } else if b == [] {
      assert a + b == a;
    } else if !IsWordChar(a[0]) {
      var s := a + b;
      assert s[0] == a[0];
      assert s[1..] == a[1..] + b;
      RewriteAppend(a[1..], b);
    } else {
      RewriteAppendWord(a, b);
    }
  }

  /** Where the first word of `a` ends inside `a + b`, when the two do not join inside a word. */
  lemma FirstWordOfAppend(a: string, b: string)
    requires a != [] && b != [] && IsWordChar(a[0])
    requires !IsWordChar(a[|a| - 1]) || !IsWordChar(b[0])
    ensures var s := a + b; var m := WordEnd(a, 0);
      && 1 <= m <= |s|
      && (forall j :: 0 <= j < m ==> IsWordChar(s[j]))
      && (m == |s| || !IsWordChar(s[m]))
      && s[..m] == a[..m] && s[m..] == a[m..] + b
  {
    var s := a + b;
    var m := WordEnd(a, 0);
    WordEndChars(a, 0);
    forall j | 0 <= j < m ensures IsWordChar(s[j]) {
      assert s[j] == a[j];
    }
    if m < |a| {
      assert s[m] == a[m];
    } else {
      assert IsWordChar(a[|a| - 1]);
      assert s[m] == b[0];
    }
    assert s[..m] == a[..m];
    assert s[m..] == a[m..] + b;
  }

  /** The first word of `a` stays the first word of `a + b` when the two do not join inside a word. */
  lemma RewriteFirstWordOfAppend(a: string, b: string)
    requires a != [] && b != [] && IsWordChar(a[0])
    requires !IsWordChar(a[|a| - 1]) || !IsWordChar(b[0])
    ensures var m := WordEnd(a, 0); var w := a[..m];
      RewriteOperators(a + b) == Sigil(w) + w + RewriteOperators(a[m..] + b)
  {
    FirstWordOfAppend(a, b);
    RewriteFirstWord(a + b, WordEnd(a, 0));
  }

  lemma AppendAssoc(x: string, y: string, z: string)
    ensures x + (y + z) == (x + y) + z
  {
  }

  lemma {:induction false} RewriteAppendWord(a: string, b: string)
    requires a != [] && b != [] && IsWordChar(a[0])
    requires !IsWordChar(a[|a| - 1]) || !IsWordChar(b[0])
    ensures RewriteOperators(a + b) == RewriteOperators(a) + RewriteOperators(b)
    decreases |a|, 0
  {
    var m := WordEnd(a, 0);
    var w := a[..m];
    var pre := Sigil(w);
    RewriteFirstWordOfAppend(a, b);
    RewriteAtWord(a);
    assert m < |a| ==> a[m..][|a[m..]| - 1] == a[|a| - 1];
    RewriteAppend(a[m..], b);
    SplitAfterPrefix(RewriteOperators(a + b), pre + w, RewriteOperators(a[m..] + b),
      RewriteOperators(a[m..]), RewriteOperators(a), RewriteOperators(b));
  }

  /** `x == p + (z + v)` and `u == p + z` give `x == u + v`. */
  lemma SplitAfterPrefix(x: string, p: string, y: string, z: string, u: string, v: string)
    requires x == p + y && y == z + v && u == p + z
    ensures x == u + v
  {
  }

  /** A text without word characters is left alone. */
  lemma {:induction false} RewriteNoWords(s: string)
    requires forall i :: 0 <= i < |s| ==> !IsWordChar(s[i])
    ensures RewriteOperators(s) == s
  {
    if s != [] {
      RewriteNoWords(s[1..]);
    }
  }

  /** A single word gets a `$` in front exactly when it is an operator. */
  lemma RewriteWord(w: string)
    requires w != [] && forall i :: 0 <= i < |w| ==> IsWordChar(w[i])
    ensures RewriteOperators(w) == Sigil(w) + w
  {
    RewriteFirstWord(w, |w|);
    assert w[..|w|] == w;
    assert w[|w|..] == [];
  }

  /** Every piece rewritten on its own. */
  function RewriteEach(parts: seq<string>): (r: seq<string>)
    ensures |r| == |parts|
    ensures forall i :: 0 <= i < |r| ==> r[i] == RewriteOperators(parts[i])
  {
    seq(|parts|, i requires 0 <= i < |parts| => RewriteOperators(parts[i]))
  }

  /** A separator that is not a word character is kept and does not touch what follows it. */
  lemma RewriteAfterSeparator(sep: char, tail: string)
    requires !IsWordChar(sep)
    ensures RewriteOperators([sep] + tail) == [sep] + RewriteOperators(tail)
  {
    RewriteAppend([sep], tail);
    RewriteNoWords([sep]);
  }

  /** Joining with a non-word separator: each piece is rewritten on its own. */
  lemma {:induction false} RewriteJoin(parts: seq<string>, sep: char)
    requires !IsWordChar(sep)
    ensures RewriteOperators(Join(parts, sep)) == Join(RewriteEach(parts), sep)
  {
    if |parts| > 1 {
      var head := parts[0];
      var tail := Join(parts[1..], sep);
      var rw := RewriteEach(parts);
      assert rw[1..] == RewriteEach(parts[1..]);
      RewriteJoin(parts[1..], sep);
      RewriteAfterSeparator(sep, tail);
      RewriteAppend(head, [sep] + tail);
      calc {
        RewriteOperators(Join(parts, sep));
        { AppendAssoc(head, [sep], tail); }
        RewriteOperators(head + ([sep] + tail));
        RewriteOperators(head) + ([sep] + RewriteOperators(tail));
        rw[0] + ([sep] + Join(rw[1..], sep));
        { AppendAssoc(rw[0], [sep], Join(rw[1..], sep)); }
        Join(rw, sep);
      }
    }
  }

  // ---------------------------------------------------------------------
  // Rewriting the text is rewriting the object
  // ---------------------------------------------------------------------

  predicate NoControlChars(s: string) {
    forall i :: 0 <= i < |s| ==> s[i] as int >= 0x20
  }

  /** What the query-string parser produces: strings, arrays and objects whose texts hold no control characters. */
  predicate PlainQueryValue(j: Json) {
    match j
    case JStr(s) => NoControlChars(s)
    case JArr(items) => forall i :: 0 <= i < |items| ==> PlainQueryValue(items[i])
    case JObj(ms) => forall i :: 0 <= i < |ms| ==> NoControlChars(ms[i].key) && PlainQueryValue(ms[i].value)
    case _ => false
  }

  /** The filter object with every key and every string value rewritten. */
  function RewriteJson(j: Json): Json {
    match j
    case JStr(s) => JStr(RewriteOperators(s))
    case JArr(items) => JArr(seq(|items|, i requires 0 <= i < |items| => RewriteJson(items[i])))
    case JObj(ms) =>
      JObj(seq(|ms|, i requires 0 <= i < |ms| => Member(RewriteOperators(ms[i].key), RewriteJson(ms[i].value))))
    case _ => j
  }

  /** Escaping leaves a word character alone and turns any other printable character into non-word characters. */
  lemma EscapeCharClass(c: char)
    requires c as int >= 0x20
    ensures IsWordChar(c) ==> EscapeChar(c) == [c]
    ensures !IsWordChar(c) ==> forall i :: 0 <= i < |EscapeChar(c)| ==> !IsWordChar(EscapeChar(c)[i])
  {
  }

  lemma {:induction false} EscapeWord(w: string)
    requires forall i :: 0 <= i < |w| ==> IsWordChar(w[i])
    ensures Escape(w) == w
  {
    if w != [] {
      EscapeCharClass(w[0]);
      EscapeWord(w[1..]);
    }
  }

  /** For text without control characters, escaping and rewriting commute. */
  lemma {:induction false} RewriteEscape(s: string)
    requires NoControlChars(s)
    ensures RewriteOperators(Escape(s)) == Escape(RewriteOperators(s))
    decreases |s|
  {
    if s != [] {
      assert NoControlChars(s[1..]) by {
        forall i | 0 <= i < |s[1..]| ensures s[1..][i] as int >= 0x20 { assert s[1..][i] == s[i + 1]; }
      }
      if !IsWordChar(s[0]) {
        RewriteEscape(s[1..]);
        RewriteEscapeNonWord(s);
      } else {
        RewriteEscapeWord(s);
      }
    }
  }

  lemma RewriteEscapeNonWord(s: string)
    requires s != [] && NoControlChars(s) && !IsWordChar(s[0])
    requires RewriteOperators(Escape(s[1..])) == Escape(RewriteOperators(s[1..]))
    ensures RewriteOperators(Escape(s)) == Escape(RewriteOperators(s))
  {
    var e := EscapeChar(s[0]);
    assert Escape(s) == e + Escape(s[1..]);
    EscapeCharClass(s[0]);
    RewriteAppend(e, Escape(s[1..]));
    RewriteNoWords(e);
    assert RewriteOperators(s) == [s[0]] + RewriteOperators(s[1..]);
    EscapeAppend([s[0]], RewriteOperators(s[1..]));
    assert Escape([s[0]]) == e;
  }

  /** Escaping a text that starts with a word: the word is kept, and what follows it starts with a non-word character. */
  lemma EscapeAtWordEnd(s: string)
    requires s != [] && NoControlChars(s) && IsWordChar(s[0])
    ensures var n := WordEnd(s, 0); var rest := s[n..];
      && s == s[..n] + rest
      && NoControlChars(rest)
      && Escape(s) == s[..n] + Escape(rest)
      && (Escape(rest) == [] || !IsWordChar(Escape(rest)[0]))
  {
    var n := WordEnd(s, 0);
    var w := s[..n];
    var rest := s[n..];
    assert s == w + rest;
    WordEndChars(s, 0);
    forall i | 0 <= i < |rest| ensures rest[i] as int >= 0x20 {
      assert rest[i] == s[n + i];
    }
    EscapeAppend(w, rest);
    EscapeWord(w);
    if rest != [] {
      assert rest[0] == s[n];
      EscapeCharClass(rest[0]);
      assert Escape(rest) == EscapeChar(rest[0]) + Escape(rest[1..]);
      assert Escape(rest)[0] == EscapeChar(rest[0])[0];
    }
  }

  /** The sigil and the word survive escaping; only what follows is escaped. */
  lemma EscapeAfterWord(w: string, x: string)
    requires forall i :: 0 <= i < |w| ==> IsWordChar(w[i])
    ensures Escape(Sigil(w) + w + x) == Sigil(w) + w + Escape(x)
  {
    var pre := Sigil(w);
    EscapeAppend(pre + w, x);
    EscapeAppend(pre, w);
    EscapeWord(w);
    assert Escape(pre) == pre;
  }

  lemma {:induction false} RewriteEscapeWord(s: string)
    requires s != [] && NoControlChars(s) && IsWordChar(s[0])
    ensures RewriteOperators(Escape(s)) == Escape(RewriteOperators(s))
    decreases |s|, 0
  {
    var n := WordEnd(s, 0);
    var w := s[..n];
    var rest := s[n..];
    EscapeAtWordEnd(s);
    WordEndChars(s, 0);
    forall j | 0 <= j < |w| ensures IsWordChar(w[j]) {
      assert w[j] == s[j];
    }
    RewriteAppend(w, Escape(rest));
    RewriteWord(w);
    RewriteEscape(rest);
    RewriteAtWord(s);
    EscapeAfterWord(w, RewriteOperators(rest));
    calc {
      RewriteOperators(Escape(s));
      RewriteOperators(w) + RewriteOperators(Escape(rest));
      Sigil(w) + w + Escape(RewriteOperators(rest));
      Escape(Sigil(w) + w + RewriteOperators(rest));
      Escape(RewriteOperators(s));
    }
  }

  lemma RewriteQuote(s: string)
    requires NoControlChars(s)
    ensures RewriteOperators(Quote(s)) == Quote(RewriteOperators(s))
  {
    var q: string := "\"";
    RewriteAppend(q + Escape(s), q);
    RewriteAppend(q, Escape(s));
    RewriteNoWords(q);
    RewriteEscape(s);
  }

  /**
   * For a filter as the query-string parser builds it, with no control
   * characters in its texts, rewriting `JSON.stringify(filter)` yields the
   * serialisation of the filter whose keys and strings are rewritten.
   */
  lemma {:induction false} StringifyRewrite(j: Json)
    requires PlainQueryValue(j)
    ensures RewriteOperators(Stringify(j)) == Stringify(RewriteJson(j))
    decreases j
  {
    match j
    case JStr(s) =>
      RewriteQuote(s);
    case JArr(items) =>
      var parts := seq(|items|, i requires 0 <= i < |items| => Stringify(items[i]));
      var items' := seq(|items|, i requires 0 <= i < |items| => RewriteJson(items[i]));
      forall i | 0 <= i < |items| ensures RewriteOperators(parts[i]) == Stringify(items'[i]) {
        StringifyRewrite(items[i]);
      }
      assert RewriteEach(parts) == seq(|items'|, i requires 0 <= i < |items'| => Stringify(items'[i]));
      RewriteJoin(parts, ',');
      RewriteBracketed("[", Join(parts, ','), "]");
    case JObj(ms) =>
      var parts := seq(|ms|, i requires 0 <= i < |ms| => Quote(ms[i].key) + ":" + Stringify(ms[i].value));
      var ms' := seq(|ms|, i requires 0 <= i < |ms| => Member(RewriteOperators(ms[i].key), RewriteJson(ms[i].value)));
      forall i | 0 <= i < |ms|
        ensures RewriteOperators(parts[i]) == Quote(ms'[i].key) + ":" + Stringify(ms'[i].value)
      {
        StringifyRewrite(ms[i].value);
        RewriteMember(ms[i].key, Stringify(ms[i].value));
      }
      assert RewriteEach(parts)
          == seq(|ms'|, i requires 0 <= i < |ms'| => Quote(ms'[i].key) + ":" + Stringify(ms'[i].value));
      RewriteJoin(parts, ',');
      RewriteBracketed("{", Join(parts, ','), "}");
  }

  lemma RewriteMember(key: string, value: string)
    requires NoControlChars(key)
    ensures RewriteOperators(Quote(key) + ":" + value)
         == Quote(RewriteOperators(key)) + ":" + RewriteOperators(value)
  {
    var colon: string := ":";
    assert Quote(key)[|Quote(key)| - 1] == '"';
    RewriteAppend(Quote(key) + colon, value);
    RewriteAppend(Quote(key), colon);
    RewriteNoWords(colon);
    RewriteQuote(key);
  }

  lemma RewriteBracketed(open: string, body: string, close: string)
    requires |open| == 1 && |close| == 1 && !IsWordChar(open[0]) && !IsWordChar(close[0])
    ensures RewriteOperators(open + body + close) == open + RewriteOperators(body) + close
  {
    RewriteAppend(open + body, close);
    RewriteAppend(open, body);
    RewriteNoWords(open);
    RewriteNoWords(close);
  }

  /** `JSON.stringify` writes a tab as backslash and `t`. */
  lemma EscapeTabIn()
    ensures Escape("\tin") == "\\tin"
  {
    var s: string := "\tin";
    assert s[1..] == "in";
    EscapeWord("in");
    assert Escape(s) == EscapeChar('\t') + Escape("in");
  }

  /** `tin` is not an operator, so the escaped text is left alone. */
  lemma RewriteEscapedTabIn()
    ensures RewriteOperators("\\tin") == "\\tin"
  {
    var bs: string := "\\";
    var t: string := "tin";
    RewriteAppend(bs, t);
    RewriteNoWords(bs);
    RewriteWord(t);
    assert bs + t == "\\tin";
  }

  lemma RewriteTabIn()
    ensures RewriteOperators("\tin") == "\t$in"
  {
    var s: string := "\tin";
    assert s[1..] == "in";
    RewriteWord("in");
    assert RewriteOperators(s) == [s[0]] + RewriteOperators(s[1..]);
  }

  /**
   * A control character hides an operator: a tab is written as `\t`, whose
   * letter joins the following word, so the serialised `"\tin"` is not
   * rewritten while the value `\tin` itself would be.
   */
  lemma ControlCharHidesOperator()
    ensures RewriteOperators(Quote("\tin")) == Quote("\tin")
    ensures Quote(RewriteOperators("\tin")) == Quote("\t$in")
  {
    EscapeTabIn();
    RewriteBracketed("\"", "\\tin", "\"");
    RewriteEscapedTabIn();
    RewriteTabIn();
  }
}
