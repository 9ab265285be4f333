/** The JavaScript string built-ins the front-end relies on (`trim`, `toLowerCase`,
    `startsWith`, `includes`, `split`, `join`, `replace`, number-to-string), written
    over `seq<char>` with the ECMAScript character classes spelled out. */
module JsStrings {

  /** ECMAScript WhiteSpace and LineTerminator code points: what `trim()` removes and
      what the regular-expression class `\s` matches. */
  predicate IsWhitespace(c: char) {
    c == '\t' || c == '\n' || c == '\U{000B}' || c == '\U{000C}' || c == '\r' || c == ' '
    || c == '\U{00A0}' || c == '\U{1680}' || ('\U{2000}' <= c <= '\U{200A}')
    || c == '\U{2028}' || c == '\U{2029}' || c == '\U{202F}' || c == '\U{205F}'
    || c == '\U{3000}' || c == '\U{FEFF}'
  }

  /** The characters a regular-expression `.` does not match (no `s` flag). */
  predicate IsLineTerminator(c: char) {
    c == '\n' || c == '\r' || c == '\U{2028}' || c == '\U{2029}'
  }

  predicate IsAsciiLetter(c: char) {
    ('a' <= c <= 'z') || ('A' <= c <= 'Z')
  }

  /** `toLowerCase` on one character. Besides A-Z, the only code point whose lower case
      is an ASCII letter is U+212A KELVIN SIGN; every other character is left as it is,
      which agrees with the real mapping on every comparison against ASCII text. */
  function LowerChar(c: char): (r: char)
    ensures IsWhitespace(c) <==> IsWhitespace(r)
    ensures !('A' <= r <= 'Z')
  {
    if 'A' <= c <= 'Z' then (c as int + 32) as char
    else if c == '\U{212A}' then 'k'
    else c
  }

  function ToLower(s: string): (r: string)
    ensures |r| == |s|
  {
    seq(|s|, i requires 0 <= i < |s| => LowerChar(s[i]))
  }

  function TrimStart(s: string): (r: string)
    ensures |r| <= |s| && r == s[|s| - |r|..]
    ensures r == [] || !IsWhitespace(r[0])
    ensures forall i :: 0 <= i < |s| - |r| ==> IsWhitespace(s[i])
  {
    if s != [] && IsWhitespace(s[0]) then TrimStart(s[1..]) else s
  }

  function TrimEnd(s: string): (r: string)
    ensures |r| <= |s| && r == s[..|r|]
    ensures r == [] || !IsWhitespace(r[|r| - 1])
    ensures forall i :: |r| <= i < |s| ==> IsWhitespace(s[i])
  {
    if s != [] && IsWhitespace(s[|s| - 1]) then TrimEnd(s[..|s| - 1]) else s
  }

  /** Trimming the end keeps the first character unless nothing is left, and something
      is left when that character is not whitespace. */
  lemma TrimEndHead(s: string)
    ensures TrimEnd(s) == [] || TrimEnd(s)[0] == s[0]
    ensures s != [] && !IsWhitespace(s[0]) ==> TrimEnd(s) != []
  {
  }

  lemma StartsWithChar(s: string, c: char)
    ensures StartsWith(s, [c]) <==> s != [] && s[0] == c
  {
  }

  /** `String.prototype.trim`. */
  function Trim(s: string): (r: string)
    ensures r == [] || (!IsWhitespace(r[0]) && !IsWhitespace(r[|r| - 1]))
    ensures |r| <= |s|
  {
    TrimEnd(TrimStart(s))
  }

  /** Trimming twice is trimming once. */
  lemma TrimIdempotent(s: string)
    ensures Trim(Trim(s)) == Trim(s)
  {
    var t := Trim(s);
    if t != [] {
      assert TrimStart(t) == t;
      assert TrimEnd(t) == t;
    }
  }

  /** `s.trim() !== ''`: the test every list service applies to a localized name. */
  predicate NotBlank(s: string) {
    Trim(s) != ""
  }

  function StartsWith(s: string, prefix: string): bool {
    |prefix| <= |s| && s[..|prefix|] == prefix
  }

  /** `part` occurs in `s` starting at index `i`. */
  predicate OccursAt(s: string, part: string, i: int) {
    0 <= i && i + |part| <= |s| && s[i..i + |part|] == part
  }

  /** `a || b` on strings: the empty string is the only falsy one. */
  function Or(a: string, b: string): (r: string)
    ensures r == "" <==> a == "" && b == ""
    ensures a != "" ==> r == a
  {
    if a != "" then a else b
  }

  /** `s.includes(part)`: `part` occurs somewhere in `s` (the empty string always does). */
  function Includes(s: string, part: string): (b: bool)
    ensures b <==> exists i :: OccursAt(s, part, i)
    decreases |s|
  {
    if |part| > |s| then false
    else if s[..|part|] == part then assert OccursAt(s, part, 0); true
    else
      OccursShift(s, part);
      Includes(s[1..], part)
  }

  lemma OccursShift(s: string, part: string)
    requires |s| > 0 && !OccursAt(s, part, 0)
    ensures (exists i :: OccursAt(s, part, i)) <==> (exists j :: OccursAt(s[1..], part, j))
  {
    if exists i :: OccursAt(s, part, i) {
      var i :| OccursAt(s, part, i);
      assert s[1..][i - 1..i - 1 + |part|] == s[i..i + |part|];
      assert OccursAt(s[1..], part, i - 1);
    }
    if exists j :: OccursAt(s[1..], part, j) {
      var j :| OccursAt(s[1..], part, j);
      assert s[1..][j..j + |part|] == s[j + 1..j + 1 + |part|];
      assert OccursAt(s, part, j + 1);
    }
  }

  /** `s.replace(/<c>/g, d)`: every occurrence of one character replaced by another. */
  function ReplaceChar(s: string, c: char, d: char): (r: string)
    ensures |r| == |s|
  {
    seq(|s|, i requires 0 <= i < |s| => if s[i] == c then d else s[i])
  }

  /** What a `\s+` run consumes: the leading whitespace, as `TrimStart` removes it, but
      with only the one fact the hyphenation proofs need (cheaper to unfold). The two
      agree everywhere (`DropWhitespaceIsTrimStart`). */
  function DropWhitespace(s: string): (r: string)
    ensures |r| <= |s| && (r == [] || !IsWhitespace(r[0]))
  {
    if s != [] && IsWhitespace(s[0]) then DropWhitespace(s[1..]) else s
  }

  lemma {:induction false} DropWhitespaceIsTrimStart(s: string)
    ensures DropWhitespace(s) == TrimStart(s)
  {
    if s != [] && IsWhitespace(s[0]) {
      DropWhitespaceIsTrimStart(s[1..]);
    }
  }

  /** `s.replace(/\s+/g, '-')`: every maximal run of whitespace becomes one hyphen. */
  function HyphenateWhitespace(s: string): (r: string)
    ensures |r| <= |s|
    decreases |s|
  {
    if s == [] then []
    else if IsWhitespace(s[0]) then "-" + HyphenateWhitespace(DropWhitespace(s[1..]))
    else [s[0]] + HyphenateWhitespace(s[1..])
  }

  /** `s.split(sep)` for a non-empty separator: occurrences are taken left to right
      without overlapping, and there is always at least one piece. */
  function Split(s: string, sep: string): (r: seq<string>)
    requires |sep| > 0
    ensures |r| >= 1
    decreases |s|
  {
    if |s| < |sep| then [s]
    else if s[..|sep|] == sep then [""] + Split(s[|sep|..], sep)
    else
      var rest := Split(s[1..], sep);
      [[s[0]] + rest[0]] + rest[1..]
  }

  /** `parts.join(sep)`. */
  function Join(parts: seq<string>, sep: string): string {
    if |parts| == 0 then ""
    else if |parts| == 1 then parts[0]
    else parts[0] + sep + Join(parts[1..], sep)
  }

  lemma {:induction false} JoinPrepend(c: char, parts: seq<string>, sep: string)
    requires |parts| >= 1
    ensures Join([[c] + parts[0]] + parts[1..], sep) == [c] + Join(parts, sep)
  {
    var q := [[c] + parts[0]] + parts[1..];
    assert q[1..] == parts[1..];
  }

  lemma JoinAfterEmpty(parts: seq<string>, sep: string)
    requires |parts| >= 1
    ensures Join([""] + parts, sep) == sep + Join(parts, sep)
  {
    assert ([""] + parts)[1..] == parts;
  }

  /** Splitting and joining with the same separator gives the text back. */
  lemma {:induction false} JoinSplit(s: string, sep: string)
    requires |sep| > 0
    ensures Join(Split(s, sep), sep) == s
    decreases |s|
  {
    if |s| < |sep| {
    } else if s[..|sep|] == sep {
      var rest := Split(s[|sep|..], sep);
      JoinSplit(s[|sep|..], sep);
      JoinAfterEmpty(rest, sep);
      assert s == sep + s[|sep|..];
    } else {
      var rest := Split(s[1..], sep);
      JoinSplit(s[1..], sep);
      JoinPrepend(s[0], rest, sep);
      assert s == [s[0]] + s[1..];
    }
  }

  predicate Excludes(s: string, c: char) {
    forall i :: 0 <= i < |s| ==> s[i] != c
  }

  /** No occurrence of `sep` starts inside `piece`, not even one that runs on into a
      following `sep`: the piece ends where the next separator begins. */
  predicate Clear(piece: string, sep: string) {
    forall k :: 0 <= k < |piece| ==> !OccursAt(piece + sep, sep, k)
  }

  /** A piece without the separator's first character is clear of it. */
  lemma ExcludesClear(piece: string, sep: string)
    requires |sep| > 0 && Excludes(piece, sep[0])
    ensures Clear(piece, sep)
  {
    forall k | 0 <= k < |piece| ensures !OccursAt(piece + sep, sep, k) {
      assert (piece + sep)[k..k + |sep|][0] == piece[k];
    }
  }

  lemma ClearTail(piece: string, sep: string)
    requires |piece| > 0 && Clear(piece, sep)
    ensures Clear(piece[1..], sep)
  {
    var t := piece[1..];
    assert t + sep == (piece + sep)[1..];
    forall k | 0 <= k < |t| ensures !OccursAt(t + sep, sep, k) {
      assert !OccursAt(piece + sep, sep, k + 1);
      assert (t + sep)[k..k + |sep|] == (piece + sep)[k + 1..k + 1 + |sep|];
    }
  }

  /** A piece clear of the separator, then the separator: that piece comes off first. */
  lemma {:induction false} SplitAfterPiece(piece: string, sep: string, rest: string)
    requires |sep| > 0 && Clear(piece, sep)
    ensures Split(piece + sep + rest, sep) == [piece] + Split(rest, sep)
    decreases |piece|
  {
    var s := piece + sep + rest;
    if piece == [] {
      assert s == sep + rest;
      assert s[..|sep|] == sep && s[|sep|..] == rest;
    } else {
      assert !OccursAt(piece + sep, sep, 0);
      assert s[..|sep|] == (piece + sep)[0..|sep|];
      assert s[1..] == piece[1..] + sep + rest;
      ClearTail(piece, sep);
      SplitAfterPiece(piece[1..], sep, rest);
      assert [s[0]] + piece[1..] == piece;
    }
  }

  /** Text clear of the separator splits into itself alone. */
  lemma {:induction false} SplitWithoutSeparator(s: string, sep: string)
    requires |sep| > 0 && Clear(s, sep)
    ensures Split(s, sep) == [s]
    decreases |s|
  {
    if |s| >= |sep| {
      assert !OccursAt(s + sep, sep, 0);
      assert s[..|sep|] == (s + sep)[0..|sep|];
      ClearTail(s, sep);
      SplitWithoutSeparator(s[1..], sep);
      assert [s[0]] + s[1..] == s;
    }
  }

  /** Splitting on a one-character separator cuts at every occurrence, so the text on
      either side of any one occurrence splits on its own. */
  lemma {:induction false} SplitAtSeparator(a: string, c: char, b: string)
    ensures Split(a + [c] + b, [c]) == Split(a, [c]) + Split(b, [c])
    decreases |a|
  {
    var s := a + [c] + b;
    if a == [] {
      assert s == [c] + b && s[..1] == [c] && s[1..] == b;
    } else if a[0] == c {
      assert s[..1] == [c] && s[1..] == a[1..] + [c] + b;
      SplitAtSeparator(a[1..], c, b);
    } else {
      assert s[..1] != [c] && s[1..] == a[1..] + [c] + b;
      SplitAtSeparator(a[1..], c, b);
    }
  }

  /** Joining pieces clear of the separator and splitting again gives the pieces back. */
  lemma {:induction false} SplitJoin(parts: seq<string>, sep: string)
    requires |parts| >= 1 && |sep| > 0
    requires forall i :: 0 <= i < |parts| ==> Clear(parts[i], sep)
    ensures Split(Join(parts, sep), sep) == parts
    decreases |parts|
  {
    if |parts| == 1 {
      SplitWithoutSeparator(parts[0], sep);
    } else {
      SplitAfterPiece(parts[0], sep, Join(parts[1..], sep));
      SplitJoin(parts[1..], sep);
    }
  }

  /** A non-empty run of characters none of which is whitespace. */
  predicate Word(w: string) {
    |w| > 0 && forall k :: 0 <= k < |w| ==> !IsWhitespace(w[k])
  }

  lemma {:induction false} HyphenateNoWhitespace(s: string)
    requires forall k :: 0 <= k < |s| ==> !IsWhitespace(s[k])
    ensures HyphenateWhitespace(s) == s
  {
    if s != [] {
      HyphenateNoWhitespace(s[1..]);
      assert s == [s[0]] + s[1..];
    }
  }

  lemma {:induction false} HyphenateWord(w: string, rest: string)
    requires forall k :: 0 <= k < |w| ==> !IsWhitespace(w[k])
    requires rest == [] || !IsWhitespace(rest[0])
    ensures HyphenateWhitespace(w + " " + rest) == w + "-" + HyphenateWhitespace(rest)
    decreases |w|
  {
    if w == [] {
      assert w + " " + rest == [' '] + rest;
      assert DropWhitespace(rest) == rest;
    } else {
      assert (w + " " + rest)[1..] == w[1..] + " " + rest;
      HyphenateWord(w[1..], rest);
      assert w == [w[0]] + w[1..];
    }
  }

  lemma JoinHead(words: seq<string>, sep: string)
    requires |words| >= 1 && |words[0]| > 0
    ensures |Join(words, sep)| > 0 && Join(words, sep)[0] == words[0][0]
  {
  }

  /** Words joined by single spaces come out of `replace(/\s+/g, '-')` joined by hyphens. */
  lemma {:induction false} HyphenateWords(words: seq<string>)
    requires |words| >= 1
    requires forall i :: 0 <= i < |words| ==> Word(words[i])
    ensures HyphenateWhitespace(Join(words, " ")) == Join(words, "-")
    decreases |words|
  {
    if |words| == 1 {
      HyphenateNoWhitespace(words[0]);
    } else {
      var rest := Join(words[1..], " ");
      JoinHead(words[1..], " ");
      HyphenateWord(words[0], rest);
      HyphenateWords(words[1..]);
    }
  }

  function DigitChar(d: nat): (c: char)
    requires d < 10
    ensures '0' <= c <= '9'
  {
    ('0' as int + d) as char
  }

  function DigitValue(c: char): (d: nat)
    ensures d < 10
    ensures '0' <= c <= '9' ==> DigitChar(d) == c
  {
    if '0' <= c <= '9' then c as int - '0' as int else 0
  }

  /** The decimal text JavaScript prints for a non-negative integer. */
  function NatToString(n: nat): (r: string)
    ensures |r| >= 1
    ensures forall i :: 0 <= i < |r| ==> '0' <= r[i] <= '9'
  {
    if n < 10 then [DigitChar(n)] else NatToString(n / 10) + [DigitChar(n % 10)]
  }

  /** The decimal text JavaScript prints for an integer (`${n}`). */
  function IntToString(n: int): (r: string)
    ensures |r| >= 1
    ensures forall i :: 0 <= i < |r| ==> r[i] != '%'
  {
    if n < 0 then "-" + NatToString(-n) else NatToString(n)
  }

  function ParseDigits(s: string): nat {
    if s == [] then 0 else ParseDigits(s[..|s| - 1]) * 10 + DigitValue(s[|s| - 1])
  }

  function ParseInt(s: string): int {
    if s != [] && s[0] == '-' then 0 - ParseDigits(s[1..]) as int else ParseDigits(s)
  }

  lemma {:induction false} ParseNatToString(n: nat)
    ensures ParseDigits(NatToString(n)) == n
  {
    var r := NatToString(n);
    if n >= 10 {
      assert r[..|r| - 1] == NatToString(n / 10);
      assert DigitValue(r[|r| - 1]) == n % 10;
      ParseNatToString(n / 10);
    } else {
      assert r[..0] == [];
    }
  }

  /** Reading back the text of an integer gives the integer. */
  lemma ParseIntToString(n: int)
    ensures ParseInt(IntToString(n)) == n
  {
    if n < 0 {
      ParseNatToString(-n);
      var t := IntToString(n);
      assert t == "-" + NatToString(-n);
      assert t != [] && t[0] == '-' && t[1..] == NatToString(-n);
    } else {
      ParseNatToString(n);
    }
  }

  lemma LowerCharIdempotent(c: char)
    ensures LowerChar(LowerChar(c)) == LowerChar(c)
  {
  }

  lemma ToLowerIdempotent(s: string)
    ensures ToLower(ToLower(s)) == ToLower(s)
  {
  }

  /** A string without upper-case letters or the Kelvin sign is its own lower case. */
  lemma LowerFixed(s: string)
    requires forall k :: 0 <= k < |s| ==> !('A' <= s[k] <= 'Z') && s[k] != '\U{212A}'
    ensures ToLower(s) == s
  {
  }

  /** A string that neither starts nor ends with whitespace is its own trim. */
  lemma TrimFixed(s: string)
    requires s != [] && !IsWhitespace(s[0]) && !IsWhitespace(s[|s| - 1])
    ensures Trim(s) == s
  {
  }

  /** A string lacking some character of `part` does not hold `part`. */
  lemma MissingChar(s: string, part: string, c: char)
    requires c in part && c !in s
    ensures !Includes(s, part)
  {
  }

  /** A string that holds `a + b` holds `a`. */
  lemma IncludesPrefix(s: string, a: string, b: string)
    requires Includes(s, a + b)
    ensures Includes(s, a)
  {
    var i :| OccursAt(s, a + b, i);
    assert s[i..i + |a|] == (a + b)[..|a|];
    assert OccursAt(s, a, i);
  }

  lemma ToLowerConcat(a: string, b: string)
    ensures ToLower(a + b) == ToLower(a) + ToLower(b)
  {
  }

  lemma ToLowerOfWhitespace(s: string)
    requires forall i :: 0 <= i < |s| ==> IsWhitespace(s[i])
    ensures ToLower(s) == s
  {
  }

  /** Lower-casing never creates or removes whitespace, so it commutes with `trim`. */
  lemma {:induction false} TrimStartToLower(s: string)
    ensures TrimStart(ToLower(s)) == ToLower(TrimStart(s))
    decreases |s|
  {
    if s != [] && IsWhitespace(s[0]) {
      assert ToLower(s)[1..] == ToLower(s[1..]);
      TrimStartToLower(s[1..]);
    }
  }

  lemma {:induction false} TrimEndToLower(s: string)
    ensures TrimEnd(ToLower(s)) == ToLower(TrimEnd(s))
    decreases |s|
  {
    if s != [] && IsWhitespace(s[|s| - 1]) {
      assert ToLower(s)[..|s| - 1] == ToLower(s[..|s| - 1]);
      TrimEndToLower(s[..|s| - 1]);
    }
  }

  lemma TrimToLower(s: string)
    ensures Trim(ToLower(s)) == ToLower(Trim(s))
  {
    TrimStartToLower(s);
    TrimEndToLower(TrimStart(s));
  }

  lemma {:induction false} TrimStartPadded(pre: string, s: string)
    requires forall i :: 0 <= i < |pre| ==> IsWhitespace(pre[i])
    ensures TrimStart(pre + s) == TrimStart(s)
    decreases |pre|
  {
    if pre != [] {
      assert (pre + s)[0] == pre[0];
      assert (pre + s)[1..] == pre[1..] + s;
      TrimStartPadded(pre[1..], s);
    } else {
      assert pre + s == s;
    }
  }

  lemma {:induction false} TrimEndPadded(s: string, post: string)
    requires forall i :: 0 <= i < |post| ==> IsWhitespace(post[i])
    ensures TrimEnd(s + post) == TrimEnd(s)
    decreases |post|
  {
    if post != [] {
      var t := post[..|post| - 1];
      assert (s + post)[|s + post| - 1] == post[|post| - 1];
      assert (s + post)[..|s + post| - 1] == s + t;
      TrimEndPadded(s, t);
    } else {
      assert s + post == s;
    }
  }

  /** Whitespace around a text does not change what `trim` returns. */
  lemma TrimPadded(pre: string, s: string, post: string)
    requires forall i :: 0 <= i < |pre| ==> IsWhitespace(pre[i])
    requires forall i :: 0 <= i < |post| ==> IsWhitespace(post[i])
    ensures Trim(pre + s + post) == Trim(s)
  {
    assert pre + s + post == pre + (s + post);
    TrimStartPadded(pre, s + post);
    TrimStartKeepsTail(s, post);
    if TrimStart(s + post) == TrimStart(s) + post {
      TrimEndPadded(TrimStart(s), post);
    }
  }

  /** Leading whitespace does not change the trimmed text. */
  lemma TrimLeftPadded(pad: string, s: string)
    requires forall i :: 0 <= i < |pad| ==> IsWhitespace(pad[i])
    ensures Trim(pad + s) == Trim(s)
  {
    TrimPadded(pad, s, "");
    assert pad + s + "" == pad + s;
  }

  lemma {:induction false} TrimStartKeepsTail(s: string, post: string)
    requires forall i :: 0 <= i < |post| ==> IsWhitespace(post[i])
    ensures TrimStart(s + post) == TrimStart(s) + post
             || (TrimStart(s) == [] && TrimStart(s + post) == [])
    decreases |s|
  {
    if s == [] {
      TrimStartPadded(post, []);
      assert post + [] == post;
    } else if IsWhitespace(s[0]) {
      assert (s + post)[1..] == s[1..] + post;
      TrimStartKeepsTail(s[1..], post);
    }
  }
}
