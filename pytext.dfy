/** The parts of Python's `str` the scripts rely on: whitespace, `strip()`,
    `lower()`, `split()`, `int(text)` and `str(int)`. */
module PyText {
  import opened Common

  /** `str.isspace()`: what `strip()`, `split()` and the regex class `\s` treat as whitespace. */
  predicate IsSpace(c: char) {
    || c == ' '
    || ('\t' <= c <= '\r')
    || ('\U{1C}' <= c <= '\U{1F}')
    || c == '\U{85}' || c == '\U{A0}' || c == '\U{1680}'
    || ('\U{2000}' <= c <= '\U{200A}')
    || c == '\U{2028}' || c == '\U{2029}' || c == '\U{202F}' || c == '\U{205F}' || c == '\U{3000}'
  }

  predicate IsDigit(c: char) {
    '0' <= c <= '9'
  }

  predicate AllDigits(s: string) {
    forall i :: 0 <= i < |s| ==> IsDigit(s[i])
  }

  /** The regex class `\w` (`str.isalnum()` or '_'), exact on Latin-1. */
  predicate IsWordChar(c: char) {
    || IsDigit(c) || ('A' <= c <= 'Z') || ('a' <= c <= 'z') || c == '_'
    || c == '\U{AA}' || c == '\U{B2}' || c == '\U{B3}' || c == '\U{B5}' || c == '\U{B9}' || c == '\U{BA}'
    || ('\U{BC}' <= c <= '\U{BE}')
    || ('\U{C0}' <= c <= '\U{D6}') || ('\U{D8}' <= c <= '\U{F6}') || ('\U{F8}' <= c <= '\U{FF}')
  }

  lemma WordCharIsNotSpace(c: char)
    ensures IsWordChar(c) ==> !IsSpace(c)
  {
  }

  /** `str.lstrip()` */
  function LStrip(s: string): (r: string)
    ensures |r| <= |s|
    ensures r == [] || !IsSpace(r[0])
    ensures forall i :: 0 <= i < |s| - |r| ==> IsSpace(s[i])
  {
    if s != [] && IsSpace(s[0]) then LStrip(s[1..]) else s
  }

  /** `str.rstrip()` */
  function RStrip(s: string): (r: string)
    ensures |r| <= |s|
    ensures r == [] || !IsSpace(r[|r| - 1])
    ensures forall i :: |r| <= i < |s| ==> IsSpace(s[i])
  {
    if s != [] && IsSpace(s[|s| - 1]) then RStrip(s[..|s| - 1]) else s
  }

  /** `str.strip()`: the slice of `s` left once leading and trailing whitespace is gone. */
  function Strip(s: string): (r: string)
    ensures |r| <= |s|
    ensures r == [] || (!IsSpace(r[0]) && !IsSpace(r[|r| - 1]))
  {
    RStripPrefix(LStrip(s));
    RStrip(LStrip(s))
  }

  lemma StripUnchanged(s: string)
    requires s == [] || (!IsSpace(s[0]) && !IsSpace(s[|s| - 1]))
    ensures Strip(s) == s
  {
  }

  lemma StripIdempotent(s: string)
    ensures Strip(Strip(s)) == Strip(s)
  {
    StripUnchanged(Strip(s));
  }

  /** `lstrip()` keeps a suffix. */
  lemma {:induction false} LStripSuffix(s: string)
    ensures LStrip(s) == s[|s| - |LStrip(s)|..]
  {
    if s != [] && IsSpace(s[0]) {
      LStripSuffix(s[1..]);
    }
  }

  /** `rstrip()` keeps a prefix. */
  lemma {:induction false} RStripPrefix(s: string)
    ensures RStrip(s) == s[..|RStrip(s)|]
  {
    if s != [] && IsSpace(s[|s| - 1]) {
      RStripPrefix(s[..|s| - 1]);
    }
  }

  /** `strip()` keeps a slice: what lies between the leading and the trailing whitespace. */
  lemma StripSlice(s: string)
    ensures |s| - |LStrip(s)| + |Strip(s)| <= |s|
    ensures Strip(s) == s[|s| - |LStrip(s)|..|s| - |LStrip(s)| + |Strip(s)|]
  {
    LStripSuffix(s);
    RStripPrefix(LStrip(s));
  }

  /** Every character of `Strip(s)` is a character of `s`. */
  lemma StripChars(s: string, c: char)
    requires c in Strip(s)
    ensures c in s
  {
    var r := Strip(s);
    var a := |s| - |LStrip(s)|;
    StripSlice(s);
    var k :| 0 <= k < |r| && r[k] == c;
    assert s[a + k] == c;
  }

  /** `c.lower()` for ASCII and Latin-1 letters. */
  function LowerChar(c: char): char {
    if ('A' <= c <= 'Z') || ('\U{C0}' <= c <= '\U{DE}' && c != '\U{D7}') then
      (c as int + 32) as char
    else
      c
  }

  /** `str.lower()` */
  function Lower(s: string): (r: string)
    ensures |r| == |s|
    ensures forall i :: 0 <= i < |s| ==> r[i] == LowerChar(s[i])
  {
    seq(|s|, i requires 0 <= i < |s| => LowerChar(s[i]))
  }

  // ---------------------------------------------------------------------
  // Integers as text

  function DigitChar(d: nat): (c: char)
    requires d < 10
    ensures IsDigit(c)
  {
    ('0' as int + d) as char
  }

  function DigitValue(c: char): (d: nat)
    requires IsDigit(c)
    ensures d < 10
  {
    c as int - '0' as int
  }

  /** `str(n)` for a non-negative int: its decimal digits, no leading zero. */
  function NatToString(n: nat): (s: string)
    ensures s != [] && AllDigits(s)
    ensures |s| > 1 ==> s[0] != '0'
  {
    if n < 10 then [DigitChar(n)] else NatToString(n / 10) + [DigitChar(n % 10)]
  }

  /** `str(i)` for an int. */
  function IntToString(i: int): (s: string)
    ensures s != [] && (s[0] == '-' || IsDigit(s[0])) && IsDigit(s[|s| - 1])
    ensures forall k :: 0 <= k < |s| ==> s[k] == '-' || IsDigit(s[k])
  {
    if i < 0 then "-" + NatToString(-i) else NatToString(i)
  }

  function DigitsValue(ds: string): nat
    requires AllDigits(ds)
  {
    if ds == [] then 0 else DigitsValue(ds[..|ds| - 1]) * 10 + DigitValue(ds[|ds| - 1])
  }

  /** `int(text)`: optional sign and decimal digits, inside optional whitespace;
      None where Python raises ValueError. */
  function ParseInt(s: string): (r: Option<int>)
    ensures r.Some? ==> Strip(s) != [] && IsDigit(Strip(s)[|Strip(s)| - 1])
  {
    var t := Strip(s);
    if t != [] && (t[0] == '-' || t[0] == '+') then
      var ds := t[1..];
      if ds != [] && AllDigits(ds) then
        Some(if t[0] == '-' then -(DigitsValue(ds) as int) else DigitsValue(ds))
      else
        None
    else if t != [] && AllDigits(t) then
      Some(DigitsValue(t))
    else
      None
  }

  /** Accepted text is digits after an optional sign, and only a '-' gives
      a negative number. */
  lemma ParseIntShape(s: string)
    requires ParseInt(s).Some?
    ensures forall k :: 0 <= k < |Strip(s)| ==> IsDigit(Strip(s)[k]) || (k == 0 && Strip(s)[k] in "+-")
    ensures ParseInt(s).value < 0 ==> Strip(s)[0] == '-'
  {
  }

  /** Whitespace around the text does not change what `int()` makes of it. */
  lemma ParseIntIgnoresSpace(s: string)
    ensures ParseInt(Strip(s)) == ParseInt(s)
  {
    StripIdempotent(s);
  }

  /** A run of digits parses as its value. */
  lemma ParseDigits(ds: string)
    requires ds != [] && AllDigits(ds)
    ensures ParseInt(ds) == Some(DigitsValue(ds) as int)
  {
    StripUnchanged(ds);
  }

  lemma {:induction false} DigitsOfNat(n: nat)
    ensures DigitsValue(NatToString(n)) == n
  {
    if n >= 10 {
      var s := NatToString(n);
      DigitsOfNat(n / 10);
      assert s[..|s| - 1] == NatToString(n / 10);
    }
  }

  /** `int(str(i)) == i` */
  lemma ParseIntToString(i: int)
    ensures ParseInt(IntToString(i)) == Some(i)
  {
    var s := IntToString(i);
    StripUnchanged(s);
    assert Strip(s) == s;
    if i < 0 {
      var ds := NatToString(-i);
      DigitsOfNat(-i);
      assert s[0] == '-' && s[1..] == ds;
      assert AllDigits(s[1..]) && s[1..] != [];
    } else {
      DigitsOfNat(i);
      assert s == NatToString(i) && AllDigits(s);
      assert s[0] != '-' && s[0] != '+';
    }
  }

  // ---------------------------------------------------------------------
  // str.split() with no argument

  /** Length of the leading run of non-whitespace characters. */
  function WordLength(t: string): (n: nat)
    ensures n <= |t|
    ensures forall i :: 0 <= i < n ==> !IsSpace(t[i])
    ensures n < |t| ==> IsSpace(t[n])
  {
    if t == [] || IsSpace(t[0]) then 0 else 1 + WordLength(t[1..])
  }

  predicate NoSpace(w: string) {
    forall i :: 0 <= i < |w| ==> !IsSpace(w[i])
  }

  /** `str.split()`: the maximal runs of non-whitespace characters, in order. */
  function Words(s: string): (ws: seq<string>)
    ensures forall k :: 0 <= k < |ws| ==> ws[k] != [] && NoSpace(ws[k])
    decreases |s|
  {
    var t := LStrip(s);
    if t == [] then []
    else
      var n := WordLength(t);
      [t[..n]] + Words(t[n..])
  }

  /** The non-whitespace characters of `s`, in order. */
  function NonSpace(s: string): string {
    if s == [] then [] else (if IsSpace(s[0]) then [] else [s[0]]) + NonSpace(s[1..])
  }

  /** The words written one after another, with nothing between them. */
  function Concat(ws: seq<string>): string {
    if ws == [] then [] else ws[0] + Concat(ws[1..])
  }

  lemma {:induction false} NonSpaceAppend(a: string, b: string)
    ensures NonSpace(a + b) == NonSpace(a) + NonSpace(b)
  {
    if a != [] {
      NonSpaceAppend(a[1..], b);
      assert (a + b)[1..] == a[1..] + b;
    } else {
      assert a + b == b;
    }
  }

  lemma {:induction false} NonSpaceOfWord(w: string)
    requires NoSpace(w)
    ensures NonSpace(w) == w
  {
    if w != [] {
      NonSpaceOfWord(w[1..]);
      assert [w[0]] + w[1..] == w;
    }
  }

  lemma {:induction false} NonSpaceLStrip(s: string)
    ensures NonSpace(LStrip(s)) == NonSpace(s)
  {
    if s != [] && IsSpace(s[0]) {
      NonSpaceLStrip(s[1..]);
    }
  }

  /** `split()` drops exactly the whitespace: the words, written one after
      another, are the non-whitespace characters of `s`. */
  lemma {:induction false} WordsConcat(s: string)
    ensures Concat(Words(s)) == NonSpace(s)
    decreases |s|
  {
    NonSpaceLStrip(s);
    var t := LStrip(s);
    if t != [] {
      var n := WordLength(t);
      WordsConcat(t[n..]);
      NonSpaceOfWord(t[..n]);
      NonSpaceAppend(t[..n], t[n..]);
      assert t[..n] + t[n..] == t;
      assert Words(s)[1..] == Words(t[n..]);
    }
  }

  /** `lstrip()` of a concatenation. */
  lemma {:induction false} LStripAppend(a: string, b: string)
    ensures LStrip(a) != [] ==> LStrip(a + b) == LStrip(a) + b
    ensures LStrip(a) == [] ==> LStrip(a + b) == LStrip(b)
  {
    if a == [] {
      assert a + b == b;
    } else if IsSpace(a[0]) {
      LStripAppend(a[1..], b);
      assert (a + b)[1..] == a[1..] + b;
    }
  }

  lemma {:induction false} WordLengthAppend(t: string, b: string)
    ensures WordLength(t) < |t| ==> WordLength(t + b) == WordLength(t)
    ensures WordLength(t) == |t| ==> WordLength(t + b) == |t| + WordLength(b)
  {
    if t == [] {
      assert t + b == b;
    } else if !IsSpace(t[0]) {
      WordLengthAppend(t[1..], b);
      assert (t + b)[1..] == t[1..] + b;
    }
  }

  /** `split()` ignores leading whitespace. */
  lemma WordsLStrip(s: string)
    ensures Words(LStrip(s)) == Words(s)
  {
    assert LStrip(LStrip(s)) == LStrip(s);
  }

  /** A whitespace character in front changes no word. */
  lemma WordsSpaceCons(c: char, x: string)
    requires IsSpace(c)
    ensures Words([c] + x) == Words(x)
  {
    assert ([c] + x)[1..] == x;
    assert LStrip([c] + x) == LStrip(x);
  }

  /** `split()` on text that starts with a word: that word, then the words
      of what follows it. */
  lemma WordsFront(t: string)
    requires t != [] && !IsSpace(t[0])
    ensures 1 <= WordLength(t)
    ensures Words(t) == [t[..WordLength(t)]] + Words(t[WordLength(t)..])
  {
    assert LStrip(t) == t;
  }

  lemma WordLengthCons(c: char, x: string)
    requires !IsSpace(c)
    ensures WordLength([c] + x) == 1 + WordLength(x)
  {
    assert ([c] + x)[1..] == x;
  }

  /** A non-whitespace character followed by whitespace is a word of its own. */
  lemma WordsWordConsAlone(c: char, x: string)
    requires !IsSpace(c) && (x == [] || IsSpace(x[0]))
    ensures Words([c] + x) == [[c]] + Words(x)
  {
    var y := [c] + x;
    WordLengthCons(c, x);
    WordsFront(y);
    assert y[..1] == [c] && y[1..] == x;
  }

  /** A non-whitespace character followed by a word joins that word. */
  lemma WordsWordConsJoin(c: char, x: string)
    requires !IsSpace(c) && x != [] && !IsSpace(x[0])
    ensures Words(x) != [] && Words([c] + x) == [[c] + Words(x)[0]] + Words(x)[1..]
  {
    var y := [c] + x;
    var m := WordLength(x);
    WordLengthCons(c, x);
    ConsSlices(c, x, m);
    WordsFront(x);
    WordsFront(y);
    var rest := Words(x[m..]);
    assert Words(x) == [x[..m]] + rest;
    assert Words(y) == [[c] + x[..m]] + rest;
  }

  lemma ConsSlices(c: char, x: string, m: nat)
    requires m <= |x|
    ensures ([c] + x)[..1 + m] == [c] + x[..m] && ([c] + x)[1 + m..] == x[m..]
  {
  }

  /** A non-whitespace character in front starts a word of its own, or
      joins the first word when that starts right after it. */
  lemma WordsWordCons(c: char, x: string)
    requires !IsSpace(c)
    ensures x == [] || IsSpace(x[0]) ==> Words([c] + x) == [[c]] + Words(x)
    ensures x != [] && !IsSpace(x[0]) ==> Words(x) != [] && Words([c] + x) == [[c] + Words(x)[0]] + Words(x)[1..]
  {
    if x == [] || IsSpace(x[0]) {
      WordsWordConsAlone(c, x);
    } else {
      WordsWordConsJoin(c, x);
    }
  }

  /** One step of `WordsSnocSpace`: the first word stays the first word. */
  lemma WordsSnocStep(t: string, w: char)
    requires t != [] && !IsSpace(t[0]) && IsSpace(w)
    ensures WordLength(t) <= |t|
    ensures Words(t + [w]) == [t[..WordLength(t)]] + Words(t[WordLength(t)..] + [w])
  {
    var n := WordLength(t);
    WordLengthAppend(t, [w]);
    if n == |t| {
      assert WordLength([w]) == 0;
    }
    assert WordLength(t + [w]) == n;
    SnocSlices(t, w, n);
    WordsFront(t + [w]);
    assert Words(t + [w]) == [t[..n]] + Words(t[n..] + [w]);
  }

  lemma SnocSlices(t: string, w: char, n: nat)
    requires n <= |t|
    ensures (t + [w])[..n] == t[..n] && (t + [w])[n..] == t[n..] + [w]
  {
  }

  /** Whitespace at the end changes no word. */
  lemma {:induction false} WordsSnocSpace(a: string, w: char)
    requires IsSpace(w)
    ensures Words(a + [w]) == Words(a)
    decreases |a|
  {
    var t := LStrip(a);
    LStripAppend(a, [w]);
    WordsLStrip(a);
    WordsLStrip(a + [w]);
    if t == [] {
      assert LStrip([w]) == [];
    } else {
      var n := WordLength(t);
      WordsSnocStep(t, w);
      WordsFront(t);
      WordsSnocSpace(t[n..], w);
    }
  }

  lemma {:induction false} WordsRStrip(s: string)
    ensures Words(RStrip(s)) == Words(s)
    decreases |s|
  {
    if s != [] && IsSpace(s[|s| - 1]) {
      WordsRStrip(s[..|s| - 1]);
      WordsSnocSpace(s[..|s| - 1], s[|s| - 1]);
      assert s[..|s| - 1] + [s[|s| - 1]] == s;
    }
  }

  /** `split()` ignores the whitespace `strip()` removes. */
  lemma WordsStrip(s: string)
    ensures Words(Strip(s)) == Words(s)
  {
    WordsRStrip(LStrip(s));
    WordsLStrip(s);
  }
}
