/** Text helpers that stand for the parts of Rust's `str` the samples use:
    byte length (`len`), `trim`, `split_whitespace`, `split(c).next()`,
    `repeat` and ASCII upper-casing. */
module Text {

  /** `char::is_whitespace`: the Unicode White_Space property. */
  predicate IsWhitespace(c: char)
  {
    || ('\U{9}' <= c <= '\U{D}')
    || c == ' ' || c == '\U{85}' || c == '\U{A0}' || c == '\U{1680}'
    || ('\U{2000}' <= c <= '\U{200A}')
    || c == '\U{2028}' || c == '\U{2029}' || c == '\U{202F}' || c == '\U{205F}'
    || c == '\U{3000}'
  }

  predicate NoWhitespace(w: string)
  {
    forall j :: 0 <= j < |w| ==> !IsWhitespace(w[j])
  }

  /** A word of lower-case ASCII letters holds no whitespace. */
  lemma LowerCaseWord(w: string)
    requires forall j :: 0 <= j < |w| ==> 'a' <= w[j] <= 'z'
    ensures NoWhitespace(w)
  {
  }

  predicate IsAscii(s: string)
  {
    forall i :: 0 <= i < |s| ==> s[i] as int < 0x80
  }

  // ---------------------------------------------------------------------------
  // UTF-8 length: what `str::len` returns

  /** Number of bytes in the UTF-8 encoding of `c`. */
  function Utf8Width(c: char): (n: nat)
    ensures 1 <= n <= 4
    ensures n == 1 <==> c as int < 0x80
  {
    if c as int < 0x80 then 1
    else if c as int < 0x800 then 2
    else if c as int < 0x1_0000 then 3
    else 4
  }

  /** Byte length of the UTF-8 encoding of `s`, i.e. Rust's `s.len()`. */
  function Utf8Len(s: string): (n: nat)
    ensures |s| <= n <= 4 * |s|
    ensures n == 0 <==> s == []
  {
    if s == [] then 0 else Utf8Width(s[0]) + Utf8Len(s[1..])
  }

  lemma {:induction false} Utf8LenConcat(a: string, b: string)
    ensures Utf8Len(a + b) == Utf8Len(a) + Utf8Len(b)
  {
    if a == [] {
      assert a + b == b;
    } else {
      assert (a + b)[1..] == a[1..] + b;
      Utf8LenConcat(a[1..], b);
    }
  }

  /** Byte length of a string framed by two others. */
  lemma Utf8LenFrame(left: string, s: string, right: string)
    ensures Utf8Len(left + s + right) == Utf8Len(left) + Utf8Len(s) + Utf8Len(right)
  {
    Utf8LenConcat(left, s);
    Utf8LenConcat(left + s, right);
  }

  lemma {:induction false} Utf8LenAscii(s: string)
    ensures IsAscii(s) <==> Utf8Len(s) == |s|
  {
    if s != [] {
      Utf8LenAscii(s[1..]);
      assert IsAscii(s) <==> s[0] as int < 0x80 && IsAscii(s[1..]) by {
        if IsAscii(s) {
          forall i | 0 <= i < |s[1..]| ensures s[1..][i] as int < 0x80 {
            assert s[1..][i] == s[i + 1];
          }
        }
        if s[0] as int < 0x80 && IsAscii(s[1..]) {
          forall i | 0 <= i < |s| ensures s[i] as int < 0x80 {
            if i > 0 { assert s[i] == s[1..][i - 1]; }
          }
        }
      }
    }
  }

  // ---------------------------------------------------------------------------
  // `str::repeat` on a one-character string

  function Repeat(c: char, n: nat): (r: string)
    ensures |r| == n
    ensures forall i :: 0 <= i < n ==> r[i] == c
  {
    seq(n, _ => c)
  }

  lemma {:induction false} Utf8LenRepeat(c: char, n: nat)
    ensures Utf8Len(Repeat(c, n)) == n * Utf8Width(c)
  {
    if n > 0 {
      assert Repeat(c, n)[1..] == Repeat(c, n - 1);
      Utf8LenRepeat(c, n - 1);
    }
  }

  // ---------------------------------------------------------------------------
  // `s.split(sep).next()`: the text before the first separator

  /** The longest prefix of `s` that does not contain `sep`. */
  function PrefixBefore(s: string, sep: char): (r: string)
    ensures r <= s
    ensures sep !in r
    ensures |r| < |s| ==> s[|r|] == sep
    ensures sep !in s ==> r == s
  {
    if s == [] || s[0] == sep then [] else [s[0]] + PrefixBefore(s[1..], sep)
  }

  /** The text before the first `sep` of `a + [sep] + b` is `a` when `a` holds no `sep`. */
  lemma {:induction false} PrefixBeforeJoin(a: string, sep: char, b: string)
    requires sep !in a
    ensures PrefixBefore(a + [sep] + b, sep) == a
  {
    if a != [] {
      assert (a + [sep] + b)[1..] == a[1..] + [sep] + b;
      PrefixBeforeJoin(a[1..], sep, b);
    }
  }

  /** A prefix that stops at the first `sep` is the one `PrefixBefore` gives. */
  lemma PrefixBeforeAt(s: string, sep: char, i: nat)
    requires i < |s| && s[i] == sep && sep !in s[..i]
    ensures PrefixBefore(s, sep) == s[..i]
  {
    var r := PrefixBefore(s, sep);
    assert |r| == i;
  }

  // ---------------------------------------------------------------------------
  // `str::trim`

  function TrimStart(s: string): (r: string)
    ensures |r| <= |s|
    ensures r != [] ==> !IsWhitespace(r[0])
  {
    if s != [] && IsWhitespace(s[0]) then TrimStart(s[1..]) else s
  }

  /** `trim_start` drops exactly the leading whitespace: the result is a
      suffix and everything before it is whitespace. */
  lemma {:induction false} TrimStartSuffix(s: string)
    ensures TrimStart(s) == s[|s| - |TrimStart(s)|..]
    ensures forall i :: 0 <= i < |s| - |TrimStart(s)| ==> IsWhitespace(s[i])
  {
    if s != [] && IsWhitespace(s[0]) {
      TrimStartSuffix(s[1..]);
      assert s[1..][|s[1..]| - |TrimStart(s[1..])|..] == s[|s| - |TrimStart(s)|..];
      forall i | 0 <= i < |s| - |TrimStart(s)| ensures IsWhitespace(s[i]) {
        if i > 0 {
          assert s[i] == s[1..][i - 1];
        }
      }
    }
  }

  function TrimEnd(s: string): (r: string)
    ensures |r| <= |s|
    ensures r != [] ==> !IsWhitespace(r[|r| - 1])
  {
    if s != [] && IsWhitespace(s[|s| - 1]) then TrimEnd(s[..|s| - 1]) else s
  }

  /** `trim_end` drops exactly the trailing whitespace: the result is a
      prefix and everything after it is whitespace. */
  lemma {:induction false} TrimEndPrefix(s: string)
    ensures TrimEnd(s) == s[..|TrimEnd(s)|]
    ensures forall i :: |TrimEnd(s)| <= i < |s| ==> IsWhitespace(s[i])
  {
    if s != [] && IsWhitespace(s[|s| - 1]) {
      var shorter := s[..|s| - 1];
      TrimEndPrefix(shorter);
      assert shorter[..|TrimEnd(shorter)|] == s[..|TrimEnd(s)|];
      forall i | |TrimEnd(s)| <= i < |s| ensures IsWhitespace(s[i]) {
        if i < |s| - 1 {
          assert s[i] == shorter[i];
        }
      }
    }
  }

  /** `str::trim`: drops leading and trailing whitespace. */
  function Trim(s: string): string
  {
    TrimEnd(TrimStart(s))
  }

  predicate AllWhitespace(s: string)
  {
    forall i :: 0 <= i < |s| ==> IsWhitespace(s[i])
  }

  lemma {:induction false} TrimStartPadded(pre: string, t: string)
    requires AllWhitespace(pre)
    requires t != [] && !IsWhitespace(t[0])
    ensures TrimStart(pre + t) == t
  {
    if pre == [] {
      assert pre + t == t;
    } else {
      assert (pre + t)[1..] == pre[1..] + t;
      assert (pre + t)[0] == pre[0];
      TrimStartPadded(pre[1..], t);
    }
  }

  lemma {:induction false} TrimEndPadded(t: string, post: string)
    requires AllWhitespace(post)
    requires t != [] && !IsWhitespace(t[|t| - 1])
    ensures TrimEnd(t + post) == t
  {
    if post == [] {
      assert t + post == t;
    } else {
      var shorter := post[..|post| - 1];
      assert (t + post)[..|t + post| - 1] == t + shorter;
      assert (t + post)[|t + post| - 1] == post[|post| - 1];
      TrimEndPadded(t, shorter);
    }
  }

  /** Trimming removes exactly the whitespace padding around a token. */
  lemma TrimPadded(pre: string, t: string, post: string)
    requires AllWhitespace(pre) && AllWhitespace(post)
    requires t != [] && !IsWhitespace(t[0]) && !IsWhitespace(t[|t| - 1])
    ensures Trim(pre + t + post) == t
  {
    assert pre + t + post == pre + (t + post);
    TrimStartPadded(pre, t + post);
    TrimEndPadded(t, post);
  }

  // ---------------------------------------------------------------------------
  // `str::split_whitespace`

  /** The longest prefix of `s` free of whitespace. */
  function LeadingWord(s: string): (w: string)
    ensures w <= s && NoWhitespace(w)
    ensures |w| < |s| ==> IsWhitespace(s[|w|])
    ensures s != [] && !IsWhitespace(s[0]) ==> w != []
  {
    if s == [] || IsWhitespace(s[0]) then [] else [s[0]] + LeadingWord(s[1..])
  }

  /** `str::split_whitespace`: the maximal whitespace-free runs, in order. */
  function SplitWhitespace(s: string): (words: seq<string>)
    decreases |s|
  {
    var t := TrimStart(s);
    if t == [] then []
    else
      var w := LeadingWord(t);
      [w] + SplitWhitespace(t[|w|..])
  }

  /** Every word `split_whitespace` yields is non-empty and free of whitespace. */
  lemma {:induction false} SplitWhitespaceWords(s: string)
    ensures forall i :: 0 <= i < |SplitWhitespace(s)| ==>
      SplitWhitespace(s)[i] != [] && NoWhitespace(SplitWhitespace(s)[i])
    decreases |s|
  {
    var t := TrimStart(s);
    if t != [] {
      var w := LeadingWord(t);
      SplitWhitespaceWords(t[|w|..]);
      var rest := SplitWhitespace(t[|w|..]);
      assert SplitWhitespace(s) == [w] + rest;
      forall i | 0 <= i < |SplitWhitespace(s)|
        ensures SplitWhitespace(s)[i] != [] && NoWhitespace(SplitWhitespace(s)[i])
      {
        if i > 0 { assert SplitWhitespace(s)[i] == rest[i - 1]; }
      }
    }
  }

  /** Words joined by single spaces. */
  function JoinSpaces(words: seq<string>): (s: string)
  {
    if words == [] then []
    else if |words| == 1 then words[0]
    else words[0] + " " + JoinSpaces(words[1..])
  }

  lemma {:induction false} LeadingWordBefore(w: string, rest: string)
    requires NoWhitespace(w) && (rest == [] || IsWhitespace(rest[0]))
    ensures LeadingWord(w + rest) == w
  {
    if w == [] {
      assert w + rest == rest;
    } else {
      assert (w + rest)[0] == w[0];
      assert (w + rest)[1..] == w[1..] + rest;
      LeadingWordBefore(w[1..], rest);
    }
  }

  /** A leading whitespace character changes nothing. */
  lemma SplitWhitespaceSkip(c: char, r: string)
    requires IsWhitespace(c)
    ensures SplitWhitespace([c] + r) == SplitWhitespace(r)
  {
    assert ([c] + r)[1..] == r;
    assert TrimStart([c] + r) == TrimStart(r);
  }

  /** A word followed by whitespace (or nothing) is split off first. */
  lemma SplitWhitespaceWord(w: string, rest: string)
    requires w != [] && NoWhitespace(w) && (rest == [] || IsWhitespace(rest[0]))
    ensures SplitWhitespace(w + rest) == [w] + SplitWhitespace(rest)
  {
    var t := w + rest;
    assert t[0] == w[0];
    assert TrimStart(t) == t;
    LeadingWordBefore(w, rest);
    assert t[|w|..] == rest;
  }

  lemma SplitWhitespaceSingle(w: string)
    requires w != [] && NoWhitespace(w)
    ensures SplitWhitespace(w) == [w]
  {
    assert w + [] == w;
    LeadingWordBefore(w, []);
    assert TrimStart(w) == w;
    assert w[|w|..] == [];
  }

  lemma SplitWhitespaceSpaced(w: string, rest: string)
    requires w != [] && NoWhitespace(w)
    ensures SplitWhitespace(w + " " + rest) == [w] + SplitWhitespace(rest)
  {
    var spaced := " " + rest;
    assert w + " " + rest == w + spaced;
    assert spaced[0] == ' ' && spaced == [' '] + rest;
    SplitWhitespaceWord(w, spaced);
    SplitWhitespaceSkip(' ', rest);
  }

  /** Splitting at whitespace undoes joining with single spaces. */
  lemma {:induction false} SplitJoin(words: seq<string>)
    requires forall i :: 0 <= i < |words| ==> words[i] != [] && NoWhitespace(words[i])
    ensures SplitWhitespace(JoinSpaces(words)) == words
    decreases |words|, 1
  {
    if |words| == 1 {
      SplitWhitespaceSingle(words[0]);
    } else if |words| > 1 {
      SplitJoinCons(words);
    }
  }

  lemma {:induction false} SplitJoinCons(words: seq<string>)
    requires |words| > 1
    requires forall i :: 0 <= i < |words| ==> words[i] != [] && NoWhitespace(words[i])
    ensures SplitWhitespace(JoinSpaces(words)) == words
    decreases |words|, 0
  {
    var w, tail := words[0], words[1..];
    var joined := JoinSpaces(tail);
    assert JoinSpaces(words) == w + " " + joined;
    SplitWhitespaceSpaced(w, joined);
    assert forall i :: 0 <= i < |tail| ==> tail[i] == words[i + 1];
    SplitJoin(tail);
    assert words == [w] + tail;
  }

  // ---------------------------------------------------------------------------
  // ASCII upper-casing

  function UpperChar(c: char): (u: char)
  {
    if 'a' <= c <= 'z' then (c as int - 32) as char else c
  }

  /** Upper-cases the ASCII letters of `s` and keeps every other character. */
  function ToUpperAscii(s: string): (r: string)
    ensures |r| == |s|
  {
    seq(|s|, i requires 0 <= i < |s| => UpperChar(s[i]))
  }

  lemma ToUpperAsciiIdempotent(s: string)
    ensures ToUpperAscii(ToUpperAscii(s)) == ToUpperAscii(s)
  {
  }
}
