/** The JavaScript string operations the command router relies on, over
    Dafny strings (sequences of Unicode scalar values). */
module JsText {

  // ---------------------------------------------------------------------
  // Prefixes, suffixes and membership
  // ---------------------------------------------------------------------

  /** `s.startsWith(t)` */
  predicate StartsWith(s: string, t: string) {
    |t| <= |s| && s[..|t|] == t
  }

  /** `s.endsWith(t)` */
  predicate EndsWith(s: string, t: string) {
    |t| <= |s| && s[|s| - |t|..] == t
  }

  /** `startsWith` compares character by character from the front. */
  lemma StartsWithChars(s: string, t: string)
    ensures StartsWith(s, t) <==> |t| <= |s| && forall i :: 0 <= i < |t| ==> s[i] == t[i]
  {
    if |t| <= |s| && forall i :: 0 <= i < |t| ==> s[i] == t[i] {
      assert s[..|t|] == t;
    }
  }

  /** `endsWith` compares character by character from the back. */
  lemma EndsWithChars(s: string, t: string)
    ensures EndsWith(s, t) <==> |t| <= |s| && forall i :: 0 <= i < |t| ==> s[|s| - |t| + i] == t[i]
  {
    if |t| <= |s| && forall i :: 0 <= i < |t| ==> s[|s| - |t| + i] == t[i] {
      assert s[|s| - |t|..] == t;
    }
  }

  lemma StartsWithAppend(s: string, t: string, u: string)
    requires StartsWith(s, t)
    ensures StartsWith(s + u, t)
  {
    assert (s + u)[..|t|] == s[..|t|];
  }

  lemma EndsWithAppend(p: string, t: string)
    ensures EndsWith(p + t, t)
  {
    assert (p + t)[|p + t| - |t|..] == t;
  }

  // ---------------------------------------------------------------------
  // String.prototype.trim
  // ---------------------------------------------------------------------

  /** The code points `trim` removes: ECMAScript's WhiteSpace (tab, vertical
      tab, form feed, space, no-break space, byte order mark and the other
      space separators) and LineTerminator (LF, CR, LS, PS). */
  predicate IsTrimmable(c: char) {
    c == '\t' || c == '\U{000B}' || c == '\U{000C}' || c == ' ' || c == '\U{00A0}' || c == '\U{FEFF}'
    || c == '\n' || c == '\r' || c == '\U{2028}' || c == '\U{2029}'
    || c == '\U{1680}' || ('\U{2000}' <= c <= '\U{200A}') || c == '\U{202F}' || c == '\U{205F}' || c == '\U{3000}'
  }

  /** Drops the leading trimmable characters: the result is the suffix that
      starts at the first character that is not trimmable. */
  function TrimStart(s: string): (r: string)
    ensures |r| <= |s| && r == s[|s| - |r|..]
    ensures forall i :: 0 <= i < |s| - |r| ==> IsTrimmable(s[i])
    ensures r == [] || !IsTrimmable(r[0])
    decreases |s|
  {
    if |s| > 0 && IsTrimmable(s[0]) then TrimStart(s[1..]) else s
  }

  /** Drops the trailing trimmable characters: the result is the prefix that
      ends at the last character that is not trimmable. */
  function TrimEnd(s: string): (r: string)
    ensures |r| <= |s| && r == s[..|r|]
    ensures forall i :: |r| <= i < |s| ==> IsTrimmable(s[i])
    ensures r == [] || !IsTrimmable(r[|r| - 1])
    decreases |s|
  {
    if |s| > 0 && IsTrimmable(s[|s| - 1]) then TrimEnd(s[..|s| - 1]) else s
  }

  /** `s.trim()` */
  function Trim(s: string): (r: string)
    ensures |r| <= |s|
    ensures r == [] || (!IsTrimmable(r[0]) && !IsTrimmable(r[|r| - 1]))
  {
    TrimEnd(TrimStart(s))
  }

  /** A block with no trimmable character at either end, padded only by
      trimmable characters, is what trim returns. */
  lemma {:induction false} TrimOfPadded(pre: string, mid: string, post: string)
    requires forall i :: 0 <= i < |pre| ==> IsTrimmable(pre[i])
    requires forall i :: 0 <= i < |post| ==> IsTrimmable(post[i])
    requires mid == [] || (!IsTrimmable(mid[0]) && !IsTrimmable(mid[|mid| - 1]))
    ensures Trim(pre + mid + post) == mid
  {
    assert pre + mid + post == pre + (mid + post);
    if mid == [] {
      assert pre + mid + post == pre + post;
      TrimStartAllTrimmable(pre + post);
    } else {
      TrimStartOfPadded(pre, mid + post);
      assert TrimStart(mid + post) == mid + post;
      TrimEndOfPadded(mid, post);
    }
  }

  lemma {:induction false} TrimStartAllTrimmable(s: string)
    requires forall i :: 0 <= i < |s| ==> IsTrimmable(s[i])
    ensures TrimStart(s) == []
    decreases |s|
  {
    if s != [] {
      TrimStartAllTrimmable(s[1..]);
    }
  }

  lemma {:induction false} TrimStartOfPadded(pre: string, rest: string)
    requires forall i :: 0 <= i < |pre| ==> IsTrimmable(pre[i])
    requires rest == [] || !IsTrimmable(rest[0])
    ensures TrimStart(pre + rest) == TrimStart(rest)
    decreases |pre|
  {
    if pre != [] {
      assert (pre + rest)[1..] == pre[1..] + rest;
      TrimStartOfPadded(pre[1..], rest);
    }
  }

  lemma {:induction false} TrimEndOfPadded(mid: string, post: string)
    requires forall i :: 0 <= i < |post| ==> IsTrimmable(post[i])
    requires mid == [] || !IsTrimmable(mid[|mid| - 1])
    ensures TrimEnd(mid + post) == mid
    decreases |post|
  {
    if post == [] {
      assert mid + post == mid;
    } else {
      var s := mid + post;
      assert s[..|s| - 1] == mid + post[..|post| - 1];
      TrimEndOfPadded(mid, post[..|post| - 1]);
    }
  }

  /** Trimming twice gives the same string as trimming once. */
  lemma TrimIdempotent(s: string)
    ensures Trim(Trim(s)) == Trim(s)
  {
    var r := Trim(s);
    assert [] + r + [] == r;
    TrimOfPadded([], r, []);
  }

  // ---------------------------------------------------------------------
  // String.prototype.toLowerCase, restricted to ASCII letters
  // ---------------------------------------------------------------------

  predicate IsUpper(c: char) {
    'A' <= c <= 'Z'
  }

  function LowerChar(c: char): (d: char)
    ensures !IsUpper(d)
    ensures IsUpper(c) ==> d as int == c as int + 32
    ensures !IsUpper(c) ==> d == c
  {
    if IsUpper(c) then (c as int + 32) as char else c
  }

  /** `s.toLowerCase()` on ASCII letters; every other character is kept. */
  function ToLower(s: string): (r: string)
    ensures |r| == |s|
    ensures forall i :: 0 <= i < |s| ==> r[i] == LowerChar(s[i])
    decreases |s|
  {
    if s == [] then [] else [LowerChar(s[0])] + ToLower(s[1..])
  }

  /** Lower-casing leaves no upper-case letter and changes nothing a second
      time. */
  lemma ToLowerIdempotent(s: string)
    ensures forall i :: 0 <= i < |ToLower(s)| ==> !IsUpper(ToLower(s)[i])
    ensures ToLower(ToLower(s)) == ToLower(s)
  {
  }

  /** A string with no upper-case letter is its own lower-case form. */
  lemma ToLowerOfLower(s: string)
    requires forall i :: 0 <= i < |s| ==> !IsUpper(s[i])
    ensures ToLower(s) == s
  {
  }

  // ---------------------------------------------------------------------
  // String.prototype.split with a one-character separator, and its inverse
  // ---------------------------------------------------------------------

  /** `s.split(sep)`: the pieces between the occurrences of `sep`; an empty
      string gives one empty piece, and adjacent separators give empty
      pieces. */
  function Split(s: string, sep: char): (r: seq<string>)
    ensures |r| >= 1
    ensures forall k :: 0 <= k < |r| ==> sep !in r[k]
    decreases |s|
  {
    if s == [] then [[]]
    else
      var rest := Split(s[1..], sep);
      if s[0] == sep then [[]] + rest
      else [[s[0]] + rest[0]] + rest[1..]
  }

  /** `parts.join(sep)` */
  function Join(parts: seq<string>, sep: char): string
    decreases |parts|
  {
    if |parts| == 0 then []
    else if |parts| == 1 then parts[0]
    else parts[0] + [sep] + Join(parts[1..], sep)
  }

  /** Joining the pieces of a split restores the string. */
  lemma {:induction false} JoinSplit(s: string, sep: char)
    ensures Join(Split(s, sep), sep) == s
    decreases |s|
  {
    if s != [] {
      var rest := Split(s[1..], sep);
      JoinSplit(s[1..], sep);
      if s[0] != sep {
        if |rest| == 1 {
          assert Split(s, sep) == [[s[0]] + rest[0]];
        } else {
          assert Split(s, sep)[1..] == rest[1..];
          assert Join(rest, sep) == rest[0] + [sep] + Join(rest[1..], sep);
        }
      } else {
        assert Split(s, sep)[1..] == rest;
      }
    }
  }

  /** Splitting a join of separator-free pieces gives the pieces back: with
      JoinSplit, Split is exactly the inverse of Join. */
  lemma {:induction false} SplitJoin(parts: seq<string>, sep: char)
    requires |parts| >= 1
    requires forall k :: 0 <= k < |parts| ==> sep !in parts[k]
    ensures Split(Join(parts, sep), sep) == parts
    decreases |parts|, |parts[0]|
  {
    var p := parts[0];
    if p == [] {
      if |parts| > 1 {
        var j := Join(parts[1..], sep);
        assert Join(parts, sep) == [sep] + j;
        assert ([sep] + j)[1..] == j;
        SplitJoin(parts[1..], sep);
        assert [p] + parts[1..] == parts;
      }
    } else {
      var parts' := [p[1..]] + parts[1..];
      assert parts'[1..] == parts[1..];
      forall k | 0 <= k < |parts'| ensures sep !in parts'[k] {
        if k == 0 {
          assert forall c :: c in p[1..] ==> c in p;
        }
      }
      SplitJoin(parts', sep);
      var s := Join(parts, sep);
      if |parts| == 1 {
        assert s == p && s[1..] == Join(parts', sep);
      } else {
        assert s == p + [sep] + Join(parts[1..], sep);
        assert s[1..] == Join(parts', sep);
      }
      assert p[0] in p;
      assert s[0] == p[0] && p[0] != sep;
      assert [s[0]] + p[1..] == p;
      assert [[s[0]] + p[1..]] + parts[1..] == parts;
    }
  }

  /** The longest prefix of `s` in which `c` does not occur. */
  function TakeUntil(s: string, c: char): (w: string)
    ensures |w| <= |s| && w == s[..|w|]
    ensures c !in w
    ensures |w| == |s| || s[|w|] == c
    decreases |s|
  {
    if s == [] || s[0] == c then [] else [s[0]] + TakeUntil(s[1..], c)
  }

  /** A prefix free of `c` that `c` or the end follows is what TakeUntil
      returns. */
  lemma {:induction false} TakeUntilPrefix(w: string, rest: string, c: char)
    requires c !in w
    requires rest == [] || rest[0] == c
    ensures TakeUntil(w + rest, c) == w
    decreases |w|
  {
    if w == [] {
      assert w + rest == rest;
    } else {
      assert (w + rest)[1..] == w[1..] + rest;
      TakeUntilPrefix(w[1..], rest, c);
    }
  }

  /** The first piece of `s.split(' ')` is the leading word, and the other
      pieces are those of what follows the first space. */
  lemma {:induction false} SplitSpaceHead(s: string)
    ensures Split(s, ' ')[0] == TakeUntil(s, ' ')
    ensures |TakeUntil(s, ' ')| == |s| ==> Split(s, ' ') == [s]
    ensures |TakeUntil(s, ' ')| < |s| ==> Split(s, ' ')[1..] == Split(s[|TakeUntil(s, ' ')| + 1..], ' ')
    decreases |s|
  {
    if s != [] && s[0] != ' ' {
      var t := s[1..];
      SplitSpaceHead(t);
      var rest := Split(t, ' ');
      assert Split(s, ' ') == [[s[0]] + rest[0]] + rest[1..];
      assert TakeUntil(s, ' ') == [s[0]] + TakeUntil(t, ' ');
      if |TakeUntil(t, ' ')| == |t| {
        assert rest == [t];
        assert [s[0]] + t == s;
      } else {
        assert t[|TakeUntil(t, ' ')| + 1..] == s[|TakeUntil(s, ' ')| + 1..];
      }
    }
  }

  // ---------------------------------------------------------------------
  // Array.prototype.filter(Boolean) on strings
  // ---------------------------------------------------------------------

  /** Keeps the non-empty strings, in order (the empty string is the only
      falsy string). */
  function NonEmpty(parts: seq<string>): (r: seq<string>)
    ensures |r| <= |parts|
    ensures forall x :: x in r <==> x in parts && x != []
    decreases |parts|
  {
    if parts == [] then []
    else if parts[0] == [] then NonEmpty(parts[1..])
    else [parts[0]] + NonEmpty(parts[1..])
  }

  /** Filtering distributes over concatenation, so it keeps the order of the
      pieces it keeps. */
  lemma {:induction false} NonEmptyAppend(a: seq<string>, b: seq<string>)
    ensures NonEmpty(a + b) == NonEmpty(a) + NonEmpty(b)
    decreases |a|
  {
    if a == [] {
      assert a + b == b;
    } else {
      assert (a + b)[0] == a[0];
      assert (a + b)[1..] == a[1..] + b;
      NonEmptyAppend(a[1..], b);
    }
  }

  /** `s.split(' ').filter(Boolean)`: the space-separated words of `s`. */
  function Words(s: string): (r: seq<string>)
    ensures forall k :: 0 <= k < |r| ==> r[k] != [] && ' ' !in r[k]
    ensures s != [] && s[0] != ' ' ==> |r| >= 1 && r[0] == TakeUntil(s, ' ')
  {
    var pieces := Split(s, ' ');
    SplitSpaceHead(s);
    assert pieces == [pieces[0]] + pieces[1..];
    NonEmptyAppend([pieces[0]], pieces[1..]);
    forall k | 0 <= k < |NonEmpty(pieces)|
      ensures NonEmpty(pieces)[k] != [] && ' ' !in NonEmpty(pieces)[k]
    {
      assert NonEmpty(pieces)[k] in NonEmpty(pieces);
    }
    NonEmpty(pieces)
  }

  /** After the first word, the remaining words are the words of the rest of
      the string: `args[1]` is the first non-empty word after the command. */
  lemma WordsTail(s: string)
    requires s != [] && s[0] != ' '
    ensures Words(s)[1..] == Words(s[|TakeUntil(s, ' ')|..])
  {
    var w := TakeUntil(s, ' ');
    var pieces := Split(s, ' ');
    SplitSpaceHead(s);
    assert pieces == [pieces[0]] + pieces[1..];
    NonEmptyAppend([pieces[0]], pieces[1..]);
    assert Words(s) == [w] + NonEmpty(pieces[1..]);
    if |w| == |s| {
      assert s[|w|..] == [];
    } else {
      var t := s[|w|..];
      assert t[0] == ' ' && t[1..] == s[|w| + 1..];
      assert Split(t, ' ') == [[]] + Split(t[1..], ' ');
    }
  }

  /** A leading space adds only an empty piece, which the filter drops. */
  lemma WordsSkipSpace(t: string)
    ensures Words([' '] + t) == Words(t)
  {
    var s := [' '] + t;
    assert s[0] == ' ' && s[1..] == t;
    assert Split(s, ' ') == [[]] + Split(t, ' ');
    assert NonEmpty(Split(s, ' ')) == NonEmpty(Split(t, ' '));
  }

  /** `s` with every occurrence of `c` removed. */
  function DropChar(s: string, c: char): string
    decreases |s|
  {
    if s == [] then [] else (if s[0] == c then [] else [s[0]]) + DropChar(s[1..], c)
  }

  function Concat(parts: seq<string>): string
    decreases |parts|
  {
    if parts == [] then [] else parts[0] + Concat(parts[1..])
  }

  lemma {:induction false} ConcatNonEmpty(parts: seq<string>)
    ensures Concat(NonEmpty(parts)) == Concat(parts)
    decreases |parts|
  {
    if parts != [] {
      ConcatNonEmpty(parts[1..]);
      if parts[0] != [] {
        assert ([parts[0]] + NonEmpty(parts[1..]))[1..] == NonEmpty(parts[1..]);
      }
    }
  }

  lemma {:induction false} ConcatSplit(s: string, sep: char)
    ensures Concat(Split(s, sep)) == DropChar(s, sep)
    decreases |s|
  {
    if s != [] {
      var rest := Split(s[1..], sep);
      ConcatSplit(s[1..], sep);
      if s[0] == sep {
        assert ([[]] + rest)[1..] == rest;
      } else {
        var r := Split(s, sep);
        assert r[0] == [s[0]] + rest[0] && r[1..] == rest[1..];
        assert Concat(rest) == rest[0] + Concat(rest[1..]);
      }
    }
  }

  /** Tokenising loses nothing but the spaces: the words, put back together,
      are the string without its spaces. */
  lemma ConcatWords(s: string)
    ensures Concat(Words(s)) == DropChar(s, ' ')
  {
    ConcatNonEmpty(Split(s, ' '));
    ConcatSplit(s, ' ');
  }

  // ---------------------------------------------------------------------
  // String.prototype.substring(0, n)
  // ---------------------------------------------------------------------

  /** `s.substring(0, n)`: the first `n` characters, or the whole string
      when it is shorter. */
  function Prefix(s: string, n: nat): (r: string)
    ensures |r| <= n && StartsWith(s, r)
    ensures |s| <= n <==> r == s
    ensures |s| > n ==> |r| == n
  {
    if |s| <= n then s else s[..n]
  }

  // ---------------------------------------------------------------------
  // Number to decimal string, as in `'fetch error ' + status`
  // ---------------------------------------------------------------------

  predicate IsDigit(c: char) {
    '0' <= c <= '9'
  }

  function DigitChar(d: nat): (c: char)
    requires d < 10
    ensures IsDigit(c)
  {
    ('0' as int + d) as char
  }

  /** The decimal form JavaScript gives a non-negative integer: digits only,
      and no leading zero except for 0 itself. */
  function Decimal(n: nat): (r: string)
    ensures |r| >= 1
    ensures forall i :: 0 <= i < |r| ==> IsDigit(r[i])
    ensures r[0] == '0' ==> n == 0
    decreases n
  {
    if n < 10 then [DigitChar(n)] else Decimal(n / 10) + [DigitChar(n % 10)]
  }

  function DigitValue(c: char): nat
    requires IsDigit(c)
  {
    c as int - '0' as int
  }

  /** The value of a string of decimal digits. */
  function DecimalValue(s: string): nat
    requires forall i :: 0 <= i < |s| ==> IsDigit(s[i])
    decreases |s|
  {
    if s == [] then 0 else DecimalValue(s[..|s| - 1]) * 10 + DigitValue(s[|s| - 1])
  }

  /** Reading back the decimal form gives the number: Decimal is injective. */
  lemma {:induction false} DecimalRoundTrip(n: nat)
    ensures DecimalValue(Decimal(n)) == n
    decreases n
  {
    if n >= 10 {
      var s := Decimal(n);
      assert s[..|s| - 1] == Decimal(n / 10);
      DecimalRoundTrip(n / 10);
    }
  }
}
