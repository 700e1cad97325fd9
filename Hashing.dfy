/** The quote hash key of models.py: text and author are normalised, joined as
    "{text}|{author}" and digested. The digest (SHA-256, FIPS 180-4, hex-encoded)
    is a parameter: nothing here depends on its internals. */
module Hashing {
  import opened Wrappers

  /** The characters Python's `str.split()` and `str.strip()` treat as whitespace,
      by code point: U+0009..U+000D, U+001C..U+0020, U+0085, U+00A0, U+1680,
      U+2000..U+200A, U+2028, U+2029, U+202F, U+205F and U+3000. */
  predicate IsSpace(c: char) {
    var n := c as int;
    (9 <= n <= 13) || (28 <= n <= 32) || n == 0x85 || n == 0xA0 || n == 0x1680
    || (0x2000 <= n <= 0x200A) || n == 0x2028 || n == 0x2029 || n == 0x202F
    || n == 0x205F || n == 0x3000
  }

  predicate IsUpper(c: char) {
    'A' <= c <= 'Z'
  }

  /** `str.lower()` on one character, restricted to ASCII letters. */
  function LowerChar(c: char): (d: char)
    ensures !IsUpper(d)
    ensures !IsUpper(c) ==> d == c
    ensures IsUpper(c) ==> d as int == c as int + 32
    ensures IsSpace(d) <==> IsSpace(c)
    ensures d == ' ' <==> c == ' '
    ensures d == '|' <==> c == '|'
  {
    if IsUpper(c) then (c as int - 'A' as int + 'a' as int) as char else c
  }

  /** `str.lower()`, character by character. */
  function Lower(s: string): (r: string)
    ensures |r| == |s|
    ensures forall i :: 0 <= i < |s| ==> r[i] == LowerChar(s[i])
  {
    seq(|s|, i requires 0 <= i < |s| => LowerChar(s[i]))
  }

  /** Whitespace only (or empty). */
  predicate AllSpace(w: string) {
    forall i :: 0 <= i < |w| ==> IsSpace(w[i])
  }

  /** `str.lstrip()`: drops the leading whitespace (exactly that: `TrimLeftExact`). */
  function TrimLeft(s: string): (r: string)
    ensures |r| <= |s|
    ensures r == [] || !IsSpace(r[0])
  {
    if s != [] && IsSpace(s[0]) then TrimLeft(s[1..]) else s
  }

  /** `str.rstrip()`: drops the trailing whitespace (exactly that: `TrimRightExact`). */
  function TrimRight(s: string): (r: string)
    ensures |r| <= |s| && r == s[..|r|]
    ensures r == [] || !IsSpace(r[|r| - 1])
  {
    if s != [] && IsSpace(s[|s| - 1]) then TrimRight(s[..|s| - 1]) else s
  }

  /** `str.strip()` (exactly the outer whitespace is dropped: `StripExact`). */
  function Strip(s: string): (r: string)
    ensures r == [] || (!IsSpace(r[0]) && !IsSpace(r[|r| - 1]))
  {
    TrimRight(TrimLeft(s))
  }

  /** Dropping whitespace from the front of `s[1..]` also drops the space `s[0]`. */
  lemma DropOneMore(s: string, n: nat)
    requires s != [] && IsSpace(s[0]) && n <= |s| - 1 && AllSpace(s[1..][..n])
    ensures s[1..][n..] == s[n + 1..] && AllSpace(s[..n + 1])
  {
    assert s[..n + 1] == [s[0]] + s[1..][..n];
  }

  /** lstrip drops exactly the leading whitespace: what it keeps is a suffix of `s`, and
      what it drops is whitespace only. */
  lemma {:induction false} TrimLeftExact(s: string)
    ensures var r := TrimLeft(s); r == s[|s| - |r|..] && AllSpace(s[..|s| - |r|])
    decreases |s|
  {
    if s != [] && IsSpace(s[0]) {
      TrimLeftExact(s[1..]);
      DropOneMore(s, |s| - 1 - |TrimLeft(s[1..])|);
    }
  }

  /** Dropping whitespace from the back of `s[..|s| - 1]` also drops the space at the end. */
  lemma KeepOneLess(s: string, n: nat)
    requires s != [] && IsSpace(s[|s| - 1]) && n <= |s| - 1 && AllSpace(s[..|s| - 1][n..])
    ensures AllSpace(s[n..])
  {
    assert s[n..] == s[..|s| - 1][n..] + [s[|s| - 1]];
  }

  /** rstrip drops exactly the trailing whitespace: what it keeps is a prefix of `s`, and
      what it drops is whitespace only. */
  lemma {:induction false} TrimRightExact(s: string)
    ensures var r := TrimRight(s); r == s[..|r|] && AllSpace(s[|r|..])
    decreases |s|
  {
    if s != [] && IsSpace(s[|s| - 1]) {
      TrimRightExact(s[..|s| - 1]);
      KeepOneLess(s, |TrimRight(s[..|s| - 1])|);
    }
  }

  /** strip drops exactly the leading and the trailing whitespace and keeps what lies
      between: the result is the slice `s[a..b]` with only whitespace outside it. */
  lemma StripExact(s: string)
    ensures var r := Strip(s); var a := |s| - |TrimLeft(s)|;
      && a + |r| <= |s| && r == s[a..a + |r|] && AllSpace(s[..a]) && AllSpace(s[a + |r|..])
  {
    var t := TrimLeft(s);
    var r := TrimRight(t);
    TrimLeftExact(s);
    TrimRightExact(t);
    assert s[|s| - |t| + |r|..] == t[|r|..];
  }

  predicate NoSpace(w: string) {
    forall i :: 0 <= i < |w| ==> !IsSpace(w[i])
  }

  /** The longest prefix of `s` without whitespace. */
  function LeadingWord(s: string): (w: string)
    ensures |w| <= |s| && w == s[..|w|]
    ensures NoSpace(w)
    ensures |w| == |s| || IsSpace(s[|w|])
  {
    if s == [] || IsSpace(s[0]) then [] else [s[0]] + LeadingWord(s[1..])
  }

  /** `str.split()` with no separator: the maximal runs of non-whitespace, in order. */
  function Split(s: string): seq<string>
    decreases |s|
  {
    var t := TrimLeft(s);
    if t == [] then []
    else
      var w := LeadingWord(t);
      [w] + Split(t[|w|..])
  }

  /** `" ".join(words)`. */
  function Join(words: seq<string>): string {
    if |words| == 0 then ""
    else if |words| == 1 then words[0]
    else words[0] + " " + Join(words[1..])
  }

  /** Shape of the normalised text: the only whitespace is a single space between
      two non-space characters. */
  predicate Collapsed(s: string) {
    (forall i :: 0 <= i < |s| ==> IsSpace(s[i]) ==> s[i] == ' ')
    && (s != [] ==> !IsSpace(s[0]) && !IsSpace(s[|s| - 1]))
    && (forall i :: 0 <= i < |s| - 1 ==> !DoubleSpaceAt(s, i))
  }

  predicate DoubleSpaceAt(s: string, i: nat)
    requires i < |s| - 1
  {
    s[i] == ' ' && s[i + 1] == ' '
  }

  predicate IsLowercase(s: string) {
    forall i :: 0 <= i < |s| ==> !IsUpper(s[i])
  }

  /** `norm_text` of compute_quote_hash. */
  function NormText(text: Option<string>): string {
    Lower(Join(Split(Strip(OrEmpty(text)))))
  }

  /** `norm_author` of compute_quote_hash: stripped and lowered, inner whitespace kept. */
  function NormAuthor(author: Option<string>): string {
    Lower(Strip(OrEmpty(author)))
  }

  /** The string that is digested. */
  function Payload(text: Option<string>, author: Option<string>): string {
    NormText(text) + "|" + NormAuthor(author)
  }

  /** compute_quote_hash, for a given digest function. */
  function ComputeQuoteHash(text: Option<string>, author: Option<string>, sha256: string -> string): string {
    sha256(Payload(text, author))
  }

  // ---------------------------------------------------------------------------
  // Shape of the normalised text

  /** Words, in the sense of `split()`: non-empty and free of whitespace. */
  predicate AreWords(words: seq<string>) {
    forall k :: 0 <= k < |words| ==> words[k] != [] && NoSpace(words[k])
  }

  lemma WordsCons(w: string, words: seq<string>)
    requires w != [] && NoSpace(w) && AreWords(words)
    ensures AreWords([w] + words)
  {
    forall k | 0 <= k < |[w] + words| ensures ([w] + words)[k] != [] && NoSpace(([w] + words)[k]) {
      if k > 0 {
        assert ([w] + words)[k] == words[k - 1];
      }
    }
  }

  lemma {:induction false} SplitWords(s: string)
    ensures forall k :: 0 <= k < |Split(s)| ==> Split(s)[k] != [] && NoSpace(Split(s)[k])
    decreases |s|
  {
    var t := TrimLeft(s);
    if t != [] {
      var w := LeadingWord(t);
      var ws := Split(t[|w|..]);
      SplitWords(t[|w|..]);
      assert AreWords(ws);
      WordsCons(w, ws);
      assert Split(s) == [w] + ws;
    }
  }

  lemma {:induction false} JoinCollapsed(words: seq<string>)
    requires forall k :: 0 <= k < |words| ==> words[k] != [] && NoSpace(words[k])
    ensures Collapsed(Join(words))
    ensures Join(words) != [] <==> words != []
  {
    if |words| > 1 {
      JoinCollapsed(words[1..]);
      var w, rest := words[0], Join(words[1..]);
      var j := w + " " + rest;
      assert Join(words) == j;
      forall i | 0 <= i < |j| - 1 ensures !DoubleSpaceAt(j, i) {
        if i < |w| {
          assert j[i] == w[i];
        } else if i == |w| {
          assert j[i + 1] == rest[0];
        } else {
          assert !DoubleSpaceAt(rest, i - |w| - 1);
          assert j[i] == rest[i - |w| - 1] && j[i + 1] == rest[i - |w|];
        }
      }
      forall i | 0 <= i < |j| ensures IsSpace(j[i]) ==> j[i] == ' ' {
        if i < |w| {
          assert j[i] == w[i];
        } else if i > |w| {
          assert j[i] == rest[i - |w| - 1];
        }
      }
      assert j[|j| - 1] == rest[|rest| - 1];
    }
  }

  lemma LowerCollapsed(s: string)
    requires Collapsed(s)
    ensures Collapsed(Lower(s)) && IsLowercase(Lower(s))
  {
    var r := Lower(s);
    forall i | 0 <= i < |r| - 1 ensures !DoubleSpaceAt(r, i) {
      assert !DoubleSpaceAt(s, i);
      assert r[i] == LowerChar(s[i]) && r[i + 1] == LowerChar(s[i + 1]);
    }
  }

  /** `" ".join(s.split())` has the collapsed shape. */
  lemma SplitCollapses(s: string)
    ensures Collapsed(Join(Split(s)))
  {
    SplitWords(s);
    JoinCollapsed(Split(s));
  }

  /** The normalised text never starts or ends with whitespace, never holds two spaces
      in a row or any whitespace other than ' ', and has no upper-case letter. */
  lemma NormTextShape(text: Option<string>)
    ensures Collapsed(NormText(text))
    ensures IsLowercase(NormText(text))
  {
    var joined := Join(Split(Strip(OrEmpty(text))));
    SplitCollapses(Strip(OrEmpty(text)));
    LowerCollapsed(joined);
  }

  /** The normalised author never starts or ends with whitespace and has no upper-case letter. */
  lemma NormAuthorShape(author: Option<string>)
    ensures var n := NormAuthor(author); n == [] || (!IsSpace(n[0]) && !IsSpace(n[|n| - 1]))
    ensures IsLowercase(NormAuthor(author))
  {
    var s := Strip(OrEmpty(author));
    var n := Lower(s);
    if n != [] {
      assert n[0] == LowerChar(s[0]) && n[|n| - 1] == LowerChar(s[|s| - 1]);
    }
  }

  // ---------------------------------------------------------------------------
  // Normalisation is idempotent

  lemma StripUnchanged(s: string)
    requires s == [] || (!IsSpace(s[0]) && !IsSpace(s[|s| - 1]))
    ensures Strip(s) == s
  {
  }

  lemma CollapsedSuffix(s: string, k: nat)
    requires Collapsed(s) && k < |s| && !IsSpace(s[k])
    ensures Collapsed(s[k..])
  {
    var t := s[k..];
    forall i | 0 <= i < |t| - 1 ensures !DoubleSpaceAt(t, i) {
      assert !DoubleSpaceAt(s, k + i);
    }
    assert t[|t| - 1] == s[|s| - 1];
  }

  lemma {:induction false} LeadingWordOf(w: string, rest: string)
    requires NoSpace(w) && (rest == [] || IsSpace(rest[0]))
    ensures LeadingWord(w + rest) == w
  {
    if w == [] {
      assert w + rest == rest;
    } else {
      assert (w + rest)[1..] == w[1..] + rest;
      LeadingWordOf(w[1..], rest);
    }
  }

  /** A word followed by a space and a non-empty rest splits into that word and the
      words of the rest. */
  lemma SplitAfterWord(s: string, w: string, tail: string)
    requires s == w + " " + tail
    requires w != [] && NoSpace(w) && tail != [] && !IsSpace(tail[0])
    ensures Split(s) == [w] + Split(tail)
  {
    assert TrimLeft(s) == s;
    LeadingWordOf(w, " " + tail);
    assert s == w + (" " + tail);
    var rest := s[|w|..];
    assert rest == " " + tail;
    assert TrimLeft(rest) == TrimLeft(tail) == tail;
    assert Split(rest) == Split(tail);
  }

  lemma SplitSingleWord(s: string)
    requires s != [] && NoSpace(s)
    ensures Split(s) == [s]
  {
    assert TrimLeft(s) == s;
    LeadingWordOf(s, []);
    assert s + [] == s;
  }

  /** In a collapsed string the first whitespace is a single ' ' between two words. */
  lemma CollapsedAt(s: string, k: nat)
    requires Collapsed(s) && k < |s| && IsSpace(s[k]) && NoSpace(s[..k])
    ensures 0 < k < |s| - 1
    ensures s == s[..k] + " " + s[k + 1..]
    ensures !IsSpace(s[k + 1]) && Collapsed(s[k + 1..])
  {
    assert !DoubleSpaceAt(s, k);
    assert s == s[..k] + s[k..];
    assert s[k..] == [s[k]] + s[k + 1..];
    CollapsedSuffix(s, k + 1);
  }

  lemma JoinCons(w: string, words: seq<string>)
    requires words != []
    ensures Join([w] + words) == w + " " + Join(words)
  {
    assert ([w] + words)[1..] == words;
  }

  /** Splitting and re-joining a collapsed string gives it back. */
  lemma {:induction false} SplitJoinCollapsed(s: string)
    requires Collapsed(s)
    ensures Join(Split(s)) == s
    ensures s != [] ==> Split(s) != []
    decreases |s|
  {
    if s != [] {
      var k := |LeadingWord(s)|;
      if k == |s| {
        SplitSingleWord(s);
      } else {
        CollapsedAt(s, k);
        var w, tail := s[..k], s[k + 1..];
        SplitJoinCollapsed(tail);
        SplitAfterWord(s, w, tail);
        JoinCons(w, Split(tail));
      }
    }
  }

  lemma LowerLower(s: string)
    ensures Lower(Lower(s)) == Lower(s)
  {
  }

  /** Normalising the normalised text changes nothing. */
  lemma NormTextIdempotent(text: Option<string>)
    ensures NormText(Some(NormText(text))) == NormText(text)
  {
    var n := NormText(text);
    NormTextShape(text);
    StripUnchanged(n);
    SplitJoinCollapsed(n);
    LowerLower(Join(Split(Strip(OrEmpty(text)))));
  }

  /** Normalising the normalised author changes nothing. */
  lemma NormAuthorIdempotent(author: Option<string>)
    ensures NormAuthor(Some(NormAuthor(author))) == NormAuthor(author)
  {
    var n := NormAuthor(author);
    NormAuthorShape(author);
    StripUnchanged(n);
    LowerLower(Strip(OrEmpty(author)));
  }

  /** The key of a pair equals the key of its normalised pair. */
  lemma HashInvariantUnderNormalisation(text: Option<string>, author: Option<string>, sha256: string -> string)
    ensures ComputeQuoteHash(text, author, sha256)
         == ComputeQuoteHash(Some(NormText(text)), Some(NormAuthor(author)), sha256)
  {
    NormTextIdempotent(text);
    NormAuthorIdempotent(author);
  }

  // ---------------------------------------------------------------------------
  // What the normalised text keeps: its words, in order

  /** Whitespace in front of a string does not change its lstrip. */
  lemma {:induction false} TrimLeftSpaces(p: string, q: string)
    requires AllSpace(p)
    ensures TrimLeft(p + q) == TrimLeft(q)
    decreases |p|
  {
    if p != [] {
      assert (p + q)[0] == p[0] && IsSpace(p[0]);
      assert (p + q)[1..] == p[1..] + q;
      assert TrimLeft(p + q) == TrimLeft(p[1..] + q);
      TrimLeftSpaces(p[1..], q);
    } else {
      assert p + q == q;
    }
  }

  lemma SplitTrimLeft(s: string)
    ensures Split(TrimLeft(s)) == Split(s)
  {
    var t := TrimLeft(s);
    assert TrimLeft(t) == t;
  }

  /** Whitespace in front of a string does not change its words. */
  lemma SplitAfterSpaces(p: string, q: string)
    requires AllSpace(p)
    ensures Split(p + q) == Split(q)
  {
    TrimLeftSpaces(p, q);
    SplitTrimLeft(p + q);
    SplitTrimLeft(q);
  }

  /** A word ended by whitespace (or by the end) is the first word. */
  lemma SplitAtWord(w: string, rest: string)
    requires w != [] && NoSpace(w) && (rest == [] || IsSpace(rest[0]))
    ensures Split(w + rest) == [w] + Split(rest)
  {
    var s := w + rest;
    assert s[0] == w[0];
    assert TrimLeft(s) == s;
    LeadingWordOf(w, rest);
    assert s[|w|..] == rest;
  }

  lemma ConcatAssoc<T>(x: seq<T>, y: seq<T>, z: seq<T>)
    ensures x + y + z == x + (y + z)
  {
  }

  /** `a + g + b` starts with the lstrip of `a`, followed by `g + b`. */
  lemma SplitPastLeading(a: string, g: string, b: string)
    ensures Split(a + g + b) == Split(TrimLeft(a) + g + b)
  {
    var t := TrimLeft(a);
    TrimLeftExact(a);
    var p := a[..|a| - |t|];
    assert a + g + b == p + (t + g + b);
    SplitAfterSpaces(p, t + g + b);
  }

  /** `SplitAtRun` when `a` is blank. */
  lemma SplitAtRunBlank(a: string, g: string, b: string)
    requires g != [] && AllSpace(g) && TrimLeft(a) == []
    ensures Split(a + g + b) == Split(a) + Split(b)
  {
    assert Split(a + g + b) == Split(g + b) by {
      SplitPastLeading(a, g, b);
      assert TrimLeft(a) + g + b == g + b;
    }
    assert Split(g + b) == Split(b) by {
      SplitAfterSpaces(g, b);
    }
    assert Split(a) == [];
  }

  /** `SplitAtRun` when `a` has a first word, given `SplitAtRun` for what follows it. */
  lemma SplitAtRunWord(a: string, g: string, b: string)
    requires g != [] && AllSpace(g) && TrimLeft(a) != []
    requires var t := TrimLeft(a); var rest := t[|LeadingWord(t)|..];
      Split(rest + g + b) == Split(rest) + Split(b)
    ensures Split(a + g + b) == Split(a) + Split(b)
  {
    var t := TrimLeft(a);
    var w := LeadingWord(t);
    var rest := t[|w|..];
    assert Split(a + g + b) == Split(t + g + b) by {
      SplitPastLeading(a, g, b);
    }
    assert Split(t + g + b) == [w] + Split(rest + g + b) by {
      assert t == w + rest;
      ConcatAssoc(w, rest, g);
      ConcatAssoc(w, rest + g, b);
      assert (rest + g + b)[0] == if rest == [] then g[0] else rest[0];
      SplitAtWord(w, rest + g + b);
    }
    assert Split(a) == [w] + Split(rest);
    ConcatAssoc([w], Split(rest), Split(b));
  }

  /** A run of whitespace separates words: `(a + g + b).split()` is `a.split() + b.split()`
      whatever the run `g` is. With `SplitSingleWord` and `BlankTrimsAway` this fixes
      `split()` on every string. */
  lemma {:induction false} SplitAtRun(a: string, g: string, b: string)
    requires g != [] && AllSpace(g)
    ensures Split(a + g + b) == Split(a) + Split(b)
    decreases |a|
  {
    var t := TrimLeft(a);
    if t == [] {
      SplitAtRunBlank(a, g, b);
    } else {
      var rest := t[|LeadingWord(t)|..];
      SplitAtRun(rest, g, b);
      SplitAtRunWord(a, g, b);
    }
  }

  /** Outer whitespace does not change `split()`. */
  lemma SplitStrip(s: string)
    ensures Split(Strip(s)) == Split(s)
  {
    var t := TrimLeft(s);
    var r := TrimRight(t);
    SplitTrimLeft(s);
    TrimRightExact(t);
    var g := t[|r|..];
    if g != [] {
      assert t == r + g + [];
      SplitAtRun(r, g, []);
    }
  }

  /** The normalised text depends on the text's whitespace runs only through where they
      are: replacing one run by any other non-empty run keeps it. */
  lemma NormTextRunReplaced(a: string, g: string, h: string, b: string)
    requires g != [] && AllSpace(g) && h != [] && AllSpace(h)
    ensures NormText(Some(a + g + b)) == NormText(Some(a + h + b))
  {
    SplitStrip(OrEmpty(Some(a + g + b)));
    SplitStrip(OrEmpty(Some(a + h + b)));
    SplitAtRun(a, g, b);
    SplitAtRun(a, h, b);
  }

  /** A text already in collapsed form is only lower-cased: the normaliser keeps every
      character and changes only the case of letters. */
  lemma NormTextOfCollapsed(s: string)
    requires Collapsed(s)
    ensures NormText(Some(s)) == Lower(s)
  {
    StripUnchanged(s);
    SplitJoinCollapsed(s);
    if s == [] {
      assert NormText(Some(s)) == Lower(Join(Split([])));
    }
  }

  // ---------------------------------------------------------------------------
  // Absent and blank values

  lemma {:induction false} BlankTrimsAway(s: string)
    requires AllSpace(s)
    ensures TrimLeft(s) == [] && Strip(s) == [] && Split(s) == []
  {
    if s != [] {
      BlankTrimsAway(s[1..]);
    }
  }

  /** A text of whitespace only, the empty text and `None` all give the same key. */
  lemma BlankTextIsAbsent(text: string, author: Option<string>, sha256: string -> string)
    requires AllSpace(text)
    ensures ComputeQuoteHash(Some(text), author, sha256) == ComputeQuoteHash(None, author, sha256)
    ensures NormText(Some(text)) == ""
  {
    BlankTrimsAway(text);
  }

  /** An author of whitespace only, the empty author and `None` all give the same key. */
  lemma BlankAuthorIsAbsent(text: Option<string>, author: string, sha256: string -> string)
    requires AllSpace(author)
    ensures ComputeQuoteHash(text, Some(author), sha256) == ComputeQuoteHash(text, None, sha256)
    ensures Payload(text, Some(author)) == NormText(text) + "|"
  {
    BlankTrimsAway(author);
  }

  // ---------------------------------------------------------------------------
  // Letter case

  /** `[w.lower() for w in words]`. */
  function LowerAll(words: seq<string>): (r: seq<string>)
    ensures |r| == |words| && forall k :: 0 <= k < |words| ==> r[k] == Lower(words[k])
  {
    seq(|words|, k requires 0 <= k < |words| => Lower(words[k]))
  }

  lemma LowerAllCons(w: string, words: seq<string>)
    ensures LowerAll([w] + words) == [Lower(w)] + LowerAll(words)
  {
    var l, r := LowerAll([w] + words), [Lower(w)] + LowerAll(words);
    forall k | 0 <= k < |l| ensures l[k] == r[k] {
      if k > 0 {
        assert ([w] + words)[k] == words[k - 1];
      }
    }
  }

  lemma LowerDrop(s: string, i: nat)
    requires i <= |s|
    ensures Lower(s)[i..] == Lower(s[i..])
  {
  }

  lemma LowerTake(s: string, j: nat)
    requires j <= |s|
    ensures Lower(s)[..j] == Lower(s[..j])
  {
  }

  lemma {:induction false} LowerTrimLeft(s: string)
    ensures TrimLeft(Lower(s)) == Lower(TrimLeft(s))
    decreases |s|
  {
    var l := Lower(s);
    if s != [] && IsSpace(s[0]) {
      assert IsSpace(l[0]);
      LowerDrop(s, 1);
      LowerTrimLeft(s[1..]);
      calc {
        TrimLeft(l);
        TrimLeft(l[1..]);
        TrimLeft(Lower(s[1..]));
        Lower(TrimLeft(s[1..]));
      }
    } else {
      assert l == [] || !IsSpace(l[0]);
    }
  }

  lemma {:induction false} LowerTrimRight(s: string)
    ensures TrimRight(Lower(s)) == Lower(TrimRight(s))
    decreases |s|
  {
    if s != [] && IsSpace(s[|s| - 1]) {
      LowerTake(s, |s| - 1);
      LowerTrimRight(s[..|s| - 1]);
    }
  }

  lemma LowerStrip(s: string)
    ensures Strip(Lower(s)) == Lower(Strip(s))
  {
    LowerTrimLeft(s);
    LowerTrimRight(TrimLeft(s));
  }

  lemma {:induction false} LowerLeadingWord(s: string)
    ensures LeadingWord(Lower(s)) == Lower(LeadingWord(s))
    decreases |s|
  {
    if s != [] && !IsSpace(s[0]) {
      LowerDrop(s, 1);
      LowerLeadingWord(s[1..]);
      assert Lower([s[0]] + LeadingWord(s[1..])) == [LowerChar(s[0])] + Lower(LeadingWord(s[1..]));
    }
  }

  /** Splitting commutes with lowering. */
  lemma {:induction false} LowerSplit(s: string)
    ensures Split(Lower(s)) == LowerAll(Split(s))
    decreases |s|
  {
    var t := TrimLeft(s);
    LowerTrimLeft(s);
    if t != [] {
      var w := LeadingWord(t);
      var rest := t[|w|..];
      LowerLeadingWord(t);
      LowerDrop(t, |w|);
      LowerSplit(rest);
      calc {
        Split(Lower(s));
        [LeadingWord(Lower(t))] + Split(Lower(t)[|LeadingWord(Lower(t))|..]);
        [Lower(w)] + Split(Lower(t)[|w|..]);
        [Lower(w)] + Split(Lower(rest));
        [Lower(w)] + LowerAll(Split(rest));
        { LowerAllCons(w, Split(rest)); }
        LowerAll([w] + Split(rest));
      }
    }
  }

  /** Joining commutes with lowering. */
  lemma {:induction false} LowerJoin(words: seq<string>)
    ensures Lower(Join(words)) == Join(LowerAll(words))
  {
    if |words| > 1 {
      LowerJoin(words[1..]);
      assert LowerAll(words[1..]) == LowerAll(words)[1..];
      assert Lower(words[0] + " " + Join(words[1..])) == Lower(words[0]) + " " + Lower(Join(words[1..]));
    }
  }

  /** Text and author that differ only in the case of their letters have the same key. */
  lemma KeyIgnoresCase(text: string, author: string, sha256: string -> string)
    ensures ComputeQuoteHash(Some(Lower(text)), Some(Lower(author)), sha256)
         == ComputeQuoteHash(Some(text), Some(author), sha256)
  {
    var t := Strip(text);
    LowerStrip(text);
    LowerSplit(t);
    LowerJoin(Split(t));
    LowerLower(Join(Split(t)));
    LowerStrip(author);
    LowerLower(Strip(author));
  }
}
