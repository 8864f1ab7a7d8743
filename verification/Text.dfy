/** Strings as the source uses them: searching, splitting, trimming, and decimal numbers. */
module Text {
  import opened Wrappers

  /** The largest value of a 64-bit `usize`. */
  const USIZE_MAX: nat := 0xFFFF_FFFF_FFFF_FFFF

  type usize = n: nat | n <= USIZE_MAX

  predicate StartsWith(s: string, prefix: string) {
    |prefix| <= |s| && s[..|prefix|] == prefix
  }

  function StripPrefix(s: string, prefix: string): (r: Option<string>) {
    if StartsWith(s, prefix) then Some(s[|prefix|..]) else None
  }

  /** Offset of the first occurrence of `pattern`, as `str::find`. */
  function Find(s: string, pattern: string): (r: Option<nat>)
    ensures r.Some? ==> r.value + |pattern| <= |s|
  {
    if StartsWith(s, pattern) then Some(0)
    else if s == "" then None
    else
      var rest := Find(s[1..], pattern);
      if rest.Some? then Some(rest.value + 1) else None
  }

  lemma {:induction false} FindOccurs(s: string, pattern: string)
    requires Find(s, pattern).Some?
    ensures StartsWith(s[Find(s, pattern).value..], pattern)
  {
    if StartsWith(s, pattern) {
      assert s[0..] == s;
    } else {
      FindOccurs(s[1..], pattern);
      assert s[1..][Find(s[1..], pattern).value..] == s[Find(s, pattern).value..];
    }
  }

  /** It is at `i` if there is one at `i` and none before. */
  lemma {:induction false} FindIs(s: string, pattern: string, i: nat)
    requires i <= |s| && StartsWith(s[i..], pattern)
    requires forall k :: 0 <= k < i ==> !StartsWith(s[k..], pattern)
    ensures Find(s, pattern) == Some(i)
  {
    assert s[0..] == s;
    if i == 0 {
    } else {
      forall k | 0 <= k < i - 1 ensures !StartsWith(s[1..][k..], pattern) { assert s[1..][k..] == s[k + 1..]; }
      assert s[1..][i - 1..] == s[i..];
      FindIs(s[1..], pattern, i - 1);
    }
  }

  /** `s.replace(pattern, text)`: every occurrence, from the left, none overlapping. */
  function ReplaceAll(s: string, pattern: string, text: string): string
    requires pattern != ""
    decreases |s|
  {
    if s == "" then ""
    else if StartsWith(s, pattern) then text + ReplaceAll(s[|pattern|..], pattern, text)
    else [s[0]] + ReplaceAll(s[1..], pattern, text)
  }

  lemma {:induction false} ReplaceNone(s: string, pattern: string, text: string)
    requires pattern != "" && Find(s, pattern).None?
    ensures ReplaceAll(s, pattern, text) == s
  {
    if s == "" {
    } else {
      ReplaceNone(s[1..], pattern, text);
      assert s == [s[0]] + s[1..];
    }
  }

  lemma Regroup(a: string, b: string, c: string, d: string)
    ensures a + (b + c + d) == (a + b) + c + d
  {
  }

  lemma NotAtFront(s: string, pattern: string, text: string, k: nat)
    requires pattern != "" && Find(s, pattern) == Some(k) && k > 0
    ensures s != "" && Find(s[1..], pattern) == Some(k - 1) && k + |pattern| <= |s|
    ensures ReplaceAll(s, pattern, text) == [s[0]] + ReplaceAll(s[1..], pattern, text)
  {
  }

  lemma SkipOne(s: string, k: nat, n: nat)
    requires 0 < k && k + n <= |s|
    ensures [s[0]] + s[1..][..k - 1] == s[..k] && s[1..][k - 1 + n..] == s[k + n..]
  {
  }

  /** The first occurrence is replaced, and then what is behind it. */
  lemma {:induction false} ReplaceFirst(s: string, pattern: string, text: string, k: nat)
    requires pattern != "" && Find(s, pattern) == Some(k)
    ensures ReplaceAll(s, pattern, text) == s[..k] + text + ReplaceAll(s[k + |pattern|..], pattern, text)
    decreases k
  {
    if k == 0 {
      assert s[..0] + text == text;
    } else {
      NotAtFront(s, pattern, text, k);
      ReplaceFirst(s[1..], pattern, text, k - 1);
      SkipOne(s, k, |pattern|);
      Consed(ReplaceAll(s, pattern, text), [s[0]], ReplaceAll(s[1..], pattern, text),
             s[1..][..k - 1], text, ReplaceAll(s[k + |pattern|..], pattern, text), s[..k]);
    }
  }

  lemma Consed(whole: string, first: string, tail: string, before: string, text: string, rest: string, front: string)
    requires whole == first + tail && tail == before + text + rest && first + before == front
    ensures whole == front + text + rest
  {
    Regroup(first, before, text, rest);
  }

  /** It is an occurrence, and the first one. */
  lemma {:induction false} FindIsFirst(s: string, pattern: string, i: nat)
    requires i <= |s| && StartsWith(s[i..], pattern)
    ensures Find(s, pattern).Some? && Find(s, pattern).value <= i
    ensures StartsWith(s[Find(s, pattern).value..], pattern)
  {
    if StartsWith(s, pattern) {
      assert s[0..] == s;
    } else {
      assert s[0..] == s;
      assert s[1..][i - 1..] == s[i..];
      FindIsFirst(s[1..], pattern, i - 1);
      var k := Find(s[1..], pattern).value;
      assert s[1..][k..] == s[k + 1..];
    }
  }

  /** `s.split(c)`: never empty; the pieces hold no `c`. */
  function Split(s: string, c: char): (parts: seq<string>)
    ensures |parts| > 0
  {
    if s == "" then [""]
    else
      var rest := Split(s[1..], c);
      if s[0] == c then [""] + rest else [[s[0]] + rest[0]] + rest[1..]
  }

  lemma {:induction false} SplitWhole(s: string, c: char)
    requires c !in s
    ensures Split(s, c) == [s]
  {
    if s == "" {
    } else {
      SplitWhole(s[1..], c);
      assert [s[0]] + s[1..] == s;
    }
  }

  lemma {:induction false} SplitAt(s: string, c: char, rest: string)
    requires c !in s
    ensures Split(s + ([c] + rest), c) == [s] + Split(rest, c)
  {
    if s == "" {
      assert s + ([c] + rest) == [c] + rest && ([c] + rest)[1..] == rest;
    } else {
      var whole := s + ([c] + rest);
      assert whole[1..] == s[1..] + ([c] + rest) && whole[0] == s[0];
      SplitAt(s[1..], c, rest);
      assert [s[0]] + s[1..] == s;
    }
  }

  /** A text whose first part is `word` is `word` itself, or goes on behind it with the separator. */
  lemma {:induction false} SplitFirst(s: string, c: char, word: string)
    requires c !in word
    ensures Split(s, c)[0] == word && |Split(s, c)| >= 2 <==> StartsWith(s, word + [c])
  {
    if s != "" {
      var rest := Split(s[1..], c);
      if s[0] == c {
        assert Split(s, c)[0] == "" && |Split(s, c)| >= 2;
        if word == "" { assert s[..1] == [c]; } else { assert (word + [c])[0] == word[0]; }
      } else {
        assert Split(s, c) == [[s[0]] + rest[0]] + rest[1..];
        if word == "" {
          assert (word + [c])[0] == c;
        } else {
          SplitFirst(s[1..], c, word[1..]);
          FirstThenRest(s, word, c);
          assert [s[0]] + rest[0] == word <==> s[0] == word[0] && rest[0] == word[1..] by {
            assert word == [word[0]] + word[1..];
            assert ([s[0]] + rest[0])[1..] == rest[0];
          }
        }
      }
    }
  }

  lemma FirstThenRest(s: string, word: string, c: char)
    requires s != "" && word != ""
    ensures StartsWith(s, word + [c]) <==> s[0] == word[0] && StartsWith(s[1..], word[1..] + [c])
  {
    var whole, tail := word + [c], word[1..] + [c];
    assert whole == [word[0]] + tail;
    if |whole| <= |s| {
      assert s[..|whole|] == [s[0]] + s[1..][..|tail|];
      assert s[..|whole|][1..] == s[1..][..|tail|] && whole[1..] == tail;
    }
  }

  /** The characters with the Unicode property White_Space. */
  predicate IsWhitespace(c: char) {
    || '\t' <= c <= '\r'
    || c == ' '
    || c == '\U{85}'
    || c == '\U{A0}'
    || c == '\U{1680}'
    || '\U{2000}' <= c <= '\U{200A}'
    || c == '\U{2028}'
    || c == '\U{2029}'
    || c == '\U{202F}'
    || c == '\U{205F}'
    || c == '\U{3000}'
  }

  function TrimStart(s: string): (r: string)
    ensures |r| <= |s|
    ensures r != "" ==> !IsWhitespace(r[0])
  {
    if s != "" && IsWhitespace(s[0]) then TrimStart(s[1..]) else s
  }

  function TrimEnd(s: string): (r: string)
    ensures r <= s
    ensures r != "" ==> !IsWhitespace(r[|r| - 1])
  {
    if s != "" && IsWhitespace(s[|s| - 1]) then TrimEnd(s[..|s| - 1]) else s
  }

  function Trim(s: string): (r: string) { TrimEnd(TrimStart(s)) }

  /** A text whose two ends are not white space is its own trimming. */
  lemma TrimKeeps(s: string)
    requires s != "" ==> !IsWhitespace(s[0]) && !IsWhitespace(s[|s| - 1])
    ensures Trim(s) == s
  {
  }

  predicate AllWhite(s: string) { forall i :: 0 <= i < |s| ==> IsWhitespace(s[i]) }

  /** A text that neither starts nor ends with white space. */
  predicate Solid(s: string) { s != "" && !IsWhitespace(s[0]) && !IsWhitespace(s[|s| - 1]) }

  lemma {:induction false} TrimStartPadded(pad: string, s: string)
    requires AllWhite(pad) && s != "" && !IsWhitespace(s[0])
    ensures TrimStart(pad + s) == s
  {
    if pad == "" {
      assert pad + s == s;
    } else {
      assert (pad + s)[1..] == pad[1..] + s;
      TrimStartPadded(pad[1..], s);
    }
  }

  lemma {:induction false} TrimEndPadded(s: string, pad: string)
    requires AllWhite(pad) && s != "" && !IsWhitespace(s[|s| - 1])
    ensures TrimEnd(s + pad) == s
    decreases |pad|
  {
    if pad == "" {
      assert s + pad == s;
    } else {
      var k := |pad| - 1;
      assert (s + pad)[..|s| + k] == s + pad[..k];
      TrimEndPadded(s, pad[..k]);
    }
  }

  /** Trimming takes away the white space around a solid text, all of it and nothing else. */
  lemma TrimPadded(before: string, s: string, after: string)
    requires AllWhite(before) && Solid(s) && AllWhite(after)
    ensures Trim(before + (s + after)) == s
  {
    TrimStartPadded(before, s + after);
    TrimEndPadded(s, after);
  }

  lemma {:induction false} TrimStartOfWhite(s: string)
    ensures TrimStart(s) == "" <==> AllWhite(s)
  {
    if s == "" {
    } else if IsWhitespace(s[0]) {
      TrimStartOfWhite(s[1..]);
      assert s == [s[0]] + s[1..];
    }
  }

  lemma TrimOfWhite(s: string)
    ensures Trim(s) == "" <==> AllWhite(s)
  {
    TrimStartOfWhite(s);
    var t := TrimStart(s);
    if t != "" { TrimEndKeeps(t); }
  }

  lemma {:induction false} TrimEndKeeps(s: string)
    requires s != "" && !IsWhitespace(s[0])
    ensures TrimEnd(s) != ""
  {
    if !IsWhitespace(s[|s| - 1]) {
    } else {
      TrimEndKeeps(s[..|s| - 1]);
    }
  }

  /** What counts as white space: blanks and line ends do, letters, digits and marks do not. */
  lemma WhitespaceSamples()
    ensures AllWhite(" \t\n\r")
    ensures forall c :: '!' <= c <= '~' ==> !IsWhitespace(c)
  {
  }

  // ── Decimal numbers ──────────────────────────────────────────────────

  predicate IsDigit(c: char) { '0' <= c <= '9' }

  predicate AllDigits(s: string) { forall i :: 0 <= i < |s| ==> IsDigit(s[i]) }

  function Digit(d: nat): (c: char)
    requires d < 10
    ensures IsDigit(c) && c as int == '0' as int + d
  {
    '0' + d as char
  }

  /** The decimal text of a number, as `{}` prints it. */
  function Decimal(n: nat): (s: string)
    ensures s != "" && AllDigits(s)
  {
    if n < 10 then [Digit(n)] else Decimal(n / 10) + [Digit(n % 10)]
  }

  /** The number a run of digits denotes. */
  function DigitsValue(s: string): nat
    requires AllDigits(s)
  {
    if s == "" then 0 else 10 * DigitsValue(s[..|s| - 1]) + (s[|s| - 1] as int - '0' as int)
  }

  lemma {:induction false} DecimalValue(n: nat)
    ensures DigitsValue(Decimal(n)) == n
  {
    if n >= 10 {
      DecimalValue(n / 10);
      assert Decimal(n)[..|Decimal(n)| - 1] == Decimal(n / 10);
    } else {
      assert Decimal(n)[..0] == "";
    }
  }

  lemma DecimalInjective(m: nat, n: nat)
    requires Decimal(m) == Decimal(n)
    ensures m == n
  {
    DecimalValue(m);
    DecimalValue(n);
  }

  /** `str::parse::<usize>`: an optional `+`, at least one digit, and no overflow. */
  function ParseUsize(s: string): (r: Option<usize>)
  {
    var digits := if s != "" && s[0] == '+' then s[1..] else s;
    if digits == "" || !AllDigits(digits) || DigitsValue(digits) > USIZE_MAX then None
    else Some(DigitsValue(digits))
  }

  lemma ParseDecimal(n: usize)
    ensures ParseUsize(Decimal(n)) == Some(n)
  {
    DecimalValue(n);
    assert IsDigit(Decimal(n)[0]);
  }

  /** A plus sign may stand before a number. */
  lemma ParsePlus(n: usize)
    ensures ParseUsize("+" + Decimal(n)) == Some(n)
  {
    var s := "+" + Decimal(n);
    assert s[1..] == Decimal(n);
    DecimalValue(n);
  }

  /** A number that does not fit is no number. */
  lemma ParseTooLarge(n: nat)
    requires n > USIZE_MAX
    ensures ParseUsize(Decimal(n)).None?
  {
    DecimalValue(n);
    assert IsDigit(Decimal(n)[0]);
  }

  /** Length of the leading run of digits. */
  function DigitRun(s: string): (k: nat)
    ensures k <= |s| && AllDigits(s[..k])
    ensures k < |s| ==> !IsDigit(s[k])
  {
    if s == "" || !IsDigit(s[0]) then 0
    else
      var k := 1 + DigitRun(s[1..]);
      assert s[..k] == [s[0]] + s[1..][..k - 1];
      k
  }
}
