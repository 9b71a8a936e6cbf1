/**
  * The pieces of Python's `str` and `int` that the tool relies on:
  * `str.split()`, `str.strip(...)`, `str.split('-')[0]`, `int(s)` and
  * `int(s, 16)` on plain digit strings, and the `{:Nd}` / `{:Nx}` / `{:>N}`
  * format specifications (right-aligned, space-padded, lower-case hex).
  */
module Text {
  import opened Outcomes
  import opened Seqs

  // ---------------------------------------------------------------------
  // Whitespace and words
  // ---------------------------------------------------------------------

  /** The characters `str.isspace()` accepts; `str.split()` and `str.strip()` break on exactly these. */
  predicate IsSpace(c: char) {
    var n := c as int;
    (9 <= n <= 13) || (28 <= n <= 32) || n == 0x85 || n == 0xA0 || n == 0x1680
    || (0x2000 <= n <= 0x200A) || n == 0x2028 || n == 0x2029 || n == 0x202F
    || n == 0x205F || n == 0x3000
  }

  /** A token `str.split()` can produce: non-empty, no whitespace inside. */
  predicate IsWord(w: string) {
    |w| > 0 && forall i :: 0 <= i < |w| ==> !IsSpace(w[i])
  }

  /** The length of the run of non-whitespace characters that starts `s`. */
  function WordLen(s: string): (n: nat)
    ensures n <= |s|
    ensures forall i :: 0 <= i < n ==> !IsSpace(s[i])
    ensures n < |s| ==> IsSpace(s[n])
  {
    if s == [] || IsSpace(s[0]) then 0 else 1 + WordLen(s[1..])
  }

  /** Python's `s.split()`: the maximal runs of non-whitespace characters, left to right. */
  function Split(s: string): (r: seq<string>)
    ensures forall k :: 0 <= k < |r| ==> IsWord(r[k])
    decreases |s|
  {
    if s == [] then []
    else if IsSpace(s[0]) then Split(s[1..])
    else
      var n := WordLen(s);
      [s[..n]] + Split(s[n..])
  }

  /** `" ".join(ws)`: the words separated by single spaces. */
  function JoinWords(ws: seq<string>): string
  {
    if ws == [] then ""
    else if |ws| == 1 then ws[0]
    else ws[0] + " " + JoinWords(ws[1..])
  }

  /** `n` spaces. */
  function Spaces(n: nat): (r: string)
    ensures |r| == n && forall i :: 0 <= i < n ==> r[i] == ' '
  {
    seq(n, _ => ' ')
  }

  /** The `{:>w}` format of `s`: right-aligned in a field of width `w`, never truncated. */
  function LeftPad(s: string, w: nat): string
  {
    if |s| < w then Spaces(w - |s|) + s else s
  }

  /** The `{:>w}` field is `max(w, |s|)` wide: spaces, then `s` at the right edge. */
  lemma LeftPadShape(s: string, w: nat)
    ensures var r := LeftPad(s, w);
      |r| == (if |s| < w then w else |s|)
      && r[|r| - |s|..] == s
      && forall i :: 0 <= i < |r| - |s| ==> r[i] == ' '
  {
    var r := LeftPad(s, w);
    if |s| < w {
      assert r == Spaces(w - |s|) + s;
      assert r[|r| - |s|..] == s;
    } else {
      assert r[|r| - |s|..] == r[0..] == s;
    }
  }

  // ---------------------------------------------------------------------
  // Stripping and cutting
  // ---------------------------------------------------------------------

  /** `s` without its longest prefix of characters `drop` accepts. */
  function TrimLeft(s: string, drop: char -> bool): (r: string)
    ensures |r| <= |s| && r == s[|s| - |r|..]
    ensures forall i :: 0 <= i < |s| - |r| ==> drop(s[i])
    ensures r == [] || !drop(r[0])
  {
    if s != [] && drop(s[0]) then TrimLeft(s[1..], drop) else s
  }

  /** `s` without its longest suffix of characters `drop` accepts. */
  function TrimRight(s: string, drop: char -> bool): (r: string)
    ensures |r| <= |s| && r == s[..|r|]
    ensures forall i :: |r| <= i < |s| ==> drop(s[i])
    ensures r == [] || !drop(r[|r| - 1])
  {
    if s != [] && drop(s[|s| - 1]) then TrimRight(s[..|s| - 1], drop) else s
  }

  /** Python's `s.strip(chars)`: both ends trimmed. */
  function Strip(s: string, drop: char -> bool): string
  {
    TrimRight(TrimLeft(s, drop), drop)
  }

  /** Python's `s.split(sep)[0]`: the text before the first `sep`, or all of `s` when there is none. */
  function BeforeFirst(s: string, sep: char): (r: string)
    ensures |r| <= |s| && r == s[..|r|]
    ensures sep !in r
    ensures |r| < |s| ==> s[|r|] == sep
  {
    if s == [] || s[0] == sep then [] else [s[0]] + BeforeFirst(s[1..], sep)
  }

  // ---------------------------------------------------------------------
  // Digits: `int(s)`, `int(s, 16)`, `{:d}` and `{:x}`
  // ---------------------------------------------------------------------

  predicate IsDecDigit(c: char) { '0' <= c <= '9' }

  predicate IsHexDigit(c: char) { IsDecDigit(c) || 'a' <= c <= 'f' || 'A' <= c <= 'F' }

  function DigitValue(c: char): (d: nat)
    requires IsHexDigit(c)
    ensures d < 16 && (IsDecDigit(c) <==> d < 10)
  {
    if IsDecDigit(c) then c as int - '0' as int
    else if 'a' <= c <= 'f' then c as int - 'a' as int + 10
    else c as int - 'A' as int + 10
  }

  /** The lower-case digit for `d`, as `{:x}` writes it. */
  function DigitChar(d: nat): (c: char)
    requires d < 16
    ensures IsHexDigit(c) && DigitValue(c) == d
    ensures !IsSpace(c)
  {
    if d < 10 then ('0' as int + d) as char else ('a' as int + d - 10) as char
  }

  predicate AllDigits(s: string, base: nat)
  {
    forall i :: 0 <= i < |s| ==> IsHexDigit(s[i]) && DigitValue(s[i]) < base
  }

  /** The number a string of digits in `base` denotes, most significant digit first. */
  function ValueOf(s: string, base: nat): nat
    requires AllDigits(s, base)
  {
    if s == [] then 0 else ValueOf(s[..|s| - 1], base) * base + DigitValue(s[|s| - 1])
  }

  /** `int(s)` on a plain decimal string; any other text is the `ValueError` Python raises. */
  function ParseDecimal(s: string): Option<nat>
  {
    if |s| > 0 && AllDigits(s, 10) then Some(ValueOf(s, 10)) else None
  }

  /** `int(s, 16)` on a plain hexadecimal string (either case); any other text is a `ValueError`. */
  function ParseHex(s: string): Option<nat>
  {
    if |s| > 0 && AllDigits(s, 16) then Some(ValueOf(s, 16)) else None
  }

  /** `n` written in `base` without leading zeros. */
  function FormatDigits(n: nat, base: nat): (s: string)
    requires 2 <= base <= 16
    ensures IsWord(s) && AllDigits(s, base)
    ensures s[0] == '0' <==> n == 0           // no leading zeros
    ensures n == 0 ==> s == "0"
    decreases n
  {
    if n < base then [DigitChar(n)]
    else
      DivideByBase(n, base);
      FormatDigits(n / base, base) + [DigitChar(n % base)]
  }

  /** One step of writing `n` in `base`: the quotient is smaller and the digits recombine to `n`. */
  lemma DivideByBase(n: nat, base: nat)
    requires 2 <= base <= n
    ensures n / base < n && n % base < base && n == (n / base) * base + n % base
  {
  }

  /** `'{:d}'.format(n)`. */
  function FormatDecimal(n: nat): string { FormatDigits(n, 10) }

  /** `'{:x}'.format(n)`. */
  function FormatHex(n: nat): string { FormatDigits(n, 16) }

  // ---------------------------------------------------------------------
  // Lemmas
  // ---------------------------------------------------------------------

  /** Reading back what `FormatDigits` wrote gives the number again. */
  lemma {:induction false} ValueOfFormat(n: nat, base: nat)
    requires 2 <= base <= 16
    ensures ValueOf(FormatDigits(n, base), base) == n
    decreases n
  {
    if n >= base {
      var q, d := n / base, n % base;
      DivideByBase(n, base);
      ValueOfFormat(q, base);
      ValueOfAppend(FormatDigits(q, base), DigitChar(d), base);
    }
  }

  /** One more digit multiplies what came before by the base and adds its value. */
  lemma ValueOfAppend(front: string, c: char, base: nat)
    requires AllDigits(front, base) && IsHexDigit(c) && DigitValue(c) < base
    ensures AllDigits(front + [c], base)
    ensures ValueOf(front + [c], base) == ValueOf(front, base) * base + DigitValue(c)
  {
    assert (front + [c])[..|front|] == front;
  }

  /** `int('{:d}'.format(n)) == n`. */
  lemma DecimalRoundTrip(n: nat)
    ensures ParseDecimal(FormatDecimal(n)) == Some(n)
  {
    ValueOfFormat(n, 10);
  }

  /** `int('{:x}'.format(n), 16) == n`. */
  lemma HexRoundTrip(n: nat)
    ensures ParseHex(FormatHex(n)) == Some(n)
  {
    ValueOfFormat(n, 16);
  }

  /** A run of non-whitespace that the next character ends is the same word inside a longer text. */
  lemma {:induction false} WordLenConcat(a: string, b: string)
    requires b == [] || IsSpace(b[0]) || (a != [] && IsSpace(a[|a| - 1]))
    ensures WordLen(a + b) == WordLen(a)
    decreases |a|
  {
    if a == [] {
      assert a + b == b;
    } else if !IsSpace(a[0]) {
      assert (a + b)[1..] == a[1..] + b;
      WordLenConcat(a[1..], b);
    }
  }

  /** Text that a whitespace character separates splits as its two parts split. */
  lemma {:induction false} SplitConcat(a: string, b: string)
    requires a == [] || b == [] || IsSpace(a[|a| - 1]) || IsSpace(b[0])
    ensures Split(a + b) == Split(a) + Split(b)
    decreases |a|, 1
  {
    if a == [] {
      assert a + b == b && Split(a) + Split(b) == Split(b);
    } else if IsSpace(a[0]) {
      SplitConcatAfterSpace(a, b);
    } else {
      SplitConcatAfterWord(a, b);
    }
  }

  /** `SplitConcat` past a leading whitespace character. */
  lemma {:induction false} SplitConcatAfterSpace(a: string, b: string)
    requires a != [] && IsSpace(a[0])
    requires b == [] || IsSpace(a[|a| - 1]) || IsSpace(b[0])
    ensures Split(a + b) == Split(a) + Split(b)
    decreases |a|, 0
  {
    SeparatedSuffix(a, b, 1);
    SplitConcat(a[1..], b);
    AppendSlices(a, b, 1);
    assert (a + b)[0] == a[0];
  }

  /** `SplitConcat` past a leading word. */
  lemma {:induction false} SplitConcatAfterWord(a: string, b: string)
    requires a != [] && !IsSpace(a[0])
    requires b == [] || IsSpace(a[|a| - 1]) || IsSpace(b[0])
    ensures Split(a + b) == Split(a) + Split(b)
    decreases |a|, 0
  {
    var rest := a[WordLen(a)..];
    SeparatedSuffix(a, b, WordLen(a));
    SplitConcat(rest, b);
    SplitAfterWord(a, b);
    SplitFirstWord(a);
    ConcatAssoc([a[..WordLen(a)]], Split(rest), Split(b));
  }

  /** A word that the separator ends is the first token of the joined text. */
  lemma SplitAfterWord(a: string, b: string)
    requires a != [] && !IsSpace(a[0])
    requires b == [] || IsSpace(a[|a| - 1]) || IsSpace(b[0])
    ensures Split(a + b) == [a[..WordLen(a)]] + Split(a[WordLen(a)..] + b)
  {
    WordLenConcat(a, b);
    AppendSlices(a, b, WordLen(a));
    assert (a + b)[0] == a[0];
  }

  /** The first token of text that opens with a word is that word. */
  lemma SplitFirstWord(a: string)
    requires a != [] && !IsSpace(a[0])
    ensures Split(a) == [a[..WordLen(a)]] + Split(a[WordLen(a)..])
  {
  }

  /** A suffix of `a` is still separated from `b` when `a` is. */
  lemma SeparatedSuffix(a: string, b: string, k: nat)
    requires k <= |a|
    requires a == [] || b == [] || IsSpace(a[|a| - 1]) || IsSpace(b[0])
    ensures a[k..] == [] || b == [] || IsSpace(a[k..][|a[k..]| - 1]) || IsSpace(b[0])
  {
    if k < |a| {
      assert a[k..][|a[k..]| - 1] == a[|a| - 1];
    }
  }

  /** Text made only of whitespace has no tokens. */
  lemma {:induction false} SplitBlank(s: string)
    requires forall i :: 0 <= i < |s| ==> IsSpace(s[i])
    ensures Split(s) == []
    decreases |s|
  {
    if s != [] {
      SplitBlank(s[1..]);
    }
  }

  /** Two words written together make one word. */
  lemma WordConcat(a: string, b: string)
    requires IsWord(a) && IsWord(b)
    ensures IsWord(a + b)
  {
    forall i | 0 <= i < |a + b| ensures !IsSpace((a + b)[i]) {
      if i < |a| { assert (a + b)[i] == a[i]; } else { assert (a + b)[i] == b[i - |a|]; }
    }
  }

  /** A word is its own only token. */
  lemma SplitWord(w: string)
    requires IsWord(w)
    ensures Split(w) == [w]
  {
    assert WordLen(w) == |w|;
    assert w[..|w|] == w;
    assert w[|w|..] == [];
  }

  /** A word after padding spaces is the only token. */
  lemma SplitPadded(k: nat, w: string)
    requires IsWord(w)
    ensures Split(Spaces(k) + w) == [w]
  {
    SplitConcat(Spaces(k), w);
    SplitBlank(Spaces(k));
    SplitWord(w);
  }

  /** The `{:>w}` field is the word after the spaces that pad it, so it splits back to the word. */
  lemma SplitLeftPad(s: string, w: nat, tail: string)
    requires IsWord(s + tail)
    ensures Split(LeftPad(s, w) + tail) == [s + tail]
  {
    var k := if |s| < w then w - |s| else 0;
    assert LeftPad(s, w) == Spaces(k) + s;
    assert LeftPad(s, w) + tail == Spaces(k) + (s + tail);
    SplitPadded(k, s + tail);
  }

  /** A leading whitespace character does not change the tokens. */
  lemma SplitSpaceFirst(c: char, s: string)
    requires IsSpace(c)
    ensures Split([c] + s) == Split(s)
  {
    assert ([c] + s)[1..] == s;
  }

  /** `" ".join(ws).split() == ws` for words `ws`: splitting undoes joining. */
  lemma {:induction false} SplitJoin(ws: seq<string>)
    requires forall k :: 0 <= k < |ws| ==> IsWord(ws[k])
    ensures Split(JoinWords(ws)) == ws
  {
    if |ws| == 1 {
      SplitWord(ws[0]);
    } else if |ws| > 1 {
      var rest := JoinWords(ws[1..]);
      assert JoinWords(ws) == ws[0] + ([' '] + rest);
      SplitConcat(ws[0], [' '] + rest);
      SplitWord(ws[0]);
      SplitSpaceFirst(' ', rest);
      SplitJoin(ws[1..]);
      assert ws == [ws[0]] + ws[1..];
    }
  }

  /** Whitespace trimmed from the front does not change the tokens. */
  lemma SplitTrimLeft(s: string)
    ensures Split(TrimLeft(s, IsSpace)) == Split(s)
  {
    var mid := TrimLeft(s, IsSpace);
    var head := s[..|s| - |mid|];
    assert s == head + mid;
    assert forall i :: 0 <= i < |head| ==> IsSpace(head[i]);
    SplitConcat(head, mid);
    SplitBlank(head);
  }

  /** Whitespace trimmed from the back does not change the tokens. */
  lemma SplitTrimRight(s: string)
    ensures Split(TrimRight(s, IsSpace)) == Split(s)
  {
    var core := TrimRight(s, IsSpace);
    var tail := s[|core|..];
    assert s == core + tail;
    assert forall i :: 0 <= i < |tail| ==> IsSpace(tail[i]) by {
      forall i | 0 <= i < |tail| ensures IsSpace(tail[i]) {
        assert tail[i] == s[|core| + i];
      }
    }
    SplitConcat(core, tail);
    SplitBlank(tail);
  }

  /** `s.strip().split() == s.split()`: stripping the whitespace at the ends does not change the tokens. */
  lemma SplitStrip(s: string)
    ensures Split(Strip(s, IsSpace)) == Split(s)
  {
    SplitTrimLeft(s);
    SplitTrimRight(TrimLeft(s, IsSpace));
  }

  /** The separator `str.strip(',')` removes. */
  predicate IsComma(c: char) { c == ',' }

  /** Stripping commas from a comma-free word followed by one comma leaves the word. */
  lemma StripTrailingComma(w: string)
    requires |w| > 0 && ',' !in w
    ensures Strip(w + ",", IsComma) == w
  {
    var s := w + ",";
    assert s[0] == w[0];
    assert TrimLeft(s, IsComma) == s;
    assert s[..|s| - 1] == w;
    assert TrimRight(w, IsComma) == w by {
      assert w[|w| - 1] in w;
    }
  }

  /** The text before the first separator, when the separator follows a separator-free prefix, is that prefix. */
  lemma BeforeFirstSeparator(a: string, sep: char, b: string)
    requires sep !in a
    ensures BeforeFirst(a + [sep] + b, sep) == a
  {
    var s := a + [sep] + b;
    var r := BeforeFirst(s, sep);
    assert s[|a|] == sep;
    assert forall i :: 0 <= i < |a| ==> s[i] == a[i] && a[i] != sep;
    assert |r| == |a|;
    assert r == s[..|a|] == a;
  }

  /** Numbers written in hex or decimal contain no separator or bracket character. */
  lemma DigitsHaveNoPunctuation(s: string, base: nat)
    requires AllDigits(s, base)
    ensures ',' !in s && '-' !in s && ']' !in s && '[' !in s
  {
    forall i | 0 <= i < |s| ensures s[i] != ',' && s[i] != '-' && s[i] != ']' && s[i] != '[' {
      assert IsHexDigit(s[i]);
    }
  }
}
