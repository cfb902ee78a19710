/** The JSON export script: the cell parser for the "Verknüpfungen
    Prozessebene" column, the Hauptprozess-to-subprocess map, and the cleaning
    of the enhanced matrix sheet. */
module CreateDataJson {
  import opened Common
  import opened PyText
  import opened PyValue

  // ---------------------------------------------------------------------
  // expand_range

  /** The first position of `c` in `s`, as `str.split(c, 1)` finds it. */
  function IndexOf(s: string, c: char): (r: Option<nat>)
    ensures r.None? <==> c !in s
    ensures r.Some? ==> r.value < |s| && s[r.value] == c && c !in s[..r.value]
  {
    if s == [] then None
    else if s[0] == c then Some(0)
    else
      match IndexOf(s[1..], c)
      case None => None
      case Some(i) =>
        assert s[..i + 1] == [s[0]] + s[1..][..i];
        Some(i + 1)
  }

  /** A '-' with none before it is the first. */
  lemma {:induction false} IndexOfFirst(s: string, c: char, n: nat)
    requires n < |s| && s[n] == c && c !in s[..n]
    ensures IndexOf(s, c) == Some(n)
  {
    if n > 0 {
      assert s[0] == s[..n][0];
      assert s[1..][..n - 1] == s[..n][1..];
      IndexOfFirst(s[1..], c, n - 1);
    }
  }

  /** `[str(i) for i in range(lo, hi + 1)]` */
  function RangeStrings(lo: int, hi: int): (r: seq<string>)
    ensures |r| == if hi >= lo then hi - lo + 1 else 0
    ensures forall j :: 0 <= j < |r| ==> r[j] == IntToString(lo + j)
    decreases hi - lo
  {
    if hi < lo then [] else RangeStrings(lo, hi - 1) + [IntToString(hi)]
  }

  /** `expand_range(token)`: a token holding '-' is split at its first '-' and
      both sides go through `int()`; any other token comes back stripped.
      Failure is the ValueError `int()` raises. */
  function ExpandRange(token: string): (r: Result<seq<string>, PyError>)
    ensures '-' !in Strip(token) ==> r == Success([Strip(token)])
    ensures r.Failure? ==> '-' in Strip(token)
    // with a '-', it raises exactly when `int()` rejects a side of the first '-'
    ensures IndexOf(Strip(token), '-').Some? ==>
      var i := IndexOf(Strip(token), '-').value;
      && (r.Failure? <==> ParseInt(Strip(token)[..i]).None? || ParseInt(Strip(token)[i + 1..]).None?)
      && (r.Success? ==> r.value == RangeStrings(ParseInt(Strip(token)[..i]).value, ParseInt(Strip(token)[i + 1..]).value))
  {
    var t := Strip(token);
    var dash := IndexOf(t, '-');
    if dash.None? then Success([t])
    else
      var lo := ParseInt(t[..dash.value]);
      var hi := ParseInt(t[dash.value + 1..]);
      if lo.Some? && hi.Some? then Success(RangeStrings(lo.value, hi.value)) else Failure(ValueError)
  }

  /** What `expand_range` returns is stripped text, made of the token's own
      characters, digits and '-'. */
  lemma ExpandRangeClean(token: string)
    requires ExpandRange(token).Success?
    ensures forall j :: 0 <= j < |ExpandRange(token).value| ==>
      var x := ExpandRange(token).value[j];
      Strip(x) == x && forall c :: c in x ==> c in token || IsDigit(c) || c == '-'
  {
    var t := Strip(token);
    var r := ExpandRange(token).value;
    if '-' !in t {
      StripIdempotent(token);
      forall c | c in t ensures c in token {
        StripChars(token, c);
      }
    } else {
      var i := IndexOf(t, '-').value;
      RangeStringsClean(ParseInt(t[..i]).value, ParseInt(t[i + 1..]).value);
    }
  }

  /** The numbers of a range print stripped, as digits and '-'. */
  lemma RangeStringsClean(lo: int, hi: int)
    ensures forall j :: 0 <= j < |RangeStrings(lo, hi)| ==>
      Strip(RangeStrings(lo, hi)[j]) == RangeStrings(lo, hi)[j] &&
      forall c :: c in RangeStrings(lo, hi)[j] ==> IsDigit(c) || c == '-'
  {
    var r := RangeStrings(lo, hi);
    forall j | 0 <= j < |r| ensures Strip(r[j]) == r[j] && forall c :: c in r[j] ==> IsDigit(c) || c == '-' {
      StripUnchanged(r[j]);
    }
  }

  /** Every element of a range is the text of the next integer. */
  lemma RangeStringsParse(lo: int, hi: int)
    ensures forall j :: 0 <= j < |RangeStrings(lo, hi)| ==> ParseInt(RangeStrings(lo, hi)[j]) == Some(lo + j)
  {
    forall j | 0 <= j < |RangeStrings(lo, hi)| ensures ParseInt(RangeStrings(lo, hi)[j]) == Some(lo + j) {
      ParseIntToString(lo + j);
    }
  }

  /** The unfolding of `expand_range` for a token with a '-' whose sides parse. */
  lemma ExpandRangeSplit(token: string, i: nat, lo: int, hi: int)
    requires IndexOf(Strip(token), '-') == Some(i)
    requires ParseInt(Strip(token)[..i]) == Some(lo) && ParseInt(Strip(token)[i + 1..]) == Some(hi)
    ensures ExpandRange(token) == Success(RangeStrings(lo, hi))
  {
  }

  /** In "digits-rest" the first '-' is the one after the digits. */
  lemma DashAfterDigits(a: string, b: string)
    requires AllDigits(a)
    ensures IndexOf(a + "-" + b, '-') == Some(|a|)
  {
    var t := a + "-" + b;
    assert t[..|a|] == a;
    assert forall k :: 0 <= k < |a| ==> a[k] != '-';
    IndexOfFirst(t, '-', |a|);
  }

  /** A run of digits, a '-' and an int: the range between the two numbers. */
  lemma ExpandDigitsDash(a: string, b: string)
    requires a != [] && AllDigits(a)
    requires ParseInt(b).Some? && b != [] && !IsSpace(b[|b| - 1])
    ensures ExpandRange(a + "-" + b) == Success(RangeStrings(DigitsValue(a), ParseInt(b).value))
  {
    var t := a + "-" + b;
    assert t[0] == a[0] && t[|t| - 1] == b[|b| - 1];
    StripUnchanged(t);
    DashAfterDigits(a, b);
    assert t[..|a|] == a && t[|a| + 1..] == b;
    ParseDigits(a);
    ExpandRangeSplit(t, |a|, DigitsValue(a), ParseInt(b).value);
  }

  /** Writing a range as "lo-hi" and expanding it gives back the range. */
  lemma ExpandRangeRoundTrip(lo: nat, hi: int)
    ensures ExpandRange(IntToString(lo) + "-" + IntToString(hi)) == Success(RangeStrings(lo, hi))
  {
    ParseIntToString(hi);
    DigitsOfNat(lo);
    ExpandDigitsDash(IntToString(lo), IntToString(hi));
  }

  /** A range with hi below lo is empty; `expand_range` does not complain. */
  lemma ExpandRangeBackwards(lo: nat, hi: int)
    requires hi < lo
    ensures ExpandRange(IntToString(lo) + "-" + IntToString(hi)) == Success([])
  {
    ExpandRangeRoundTrip(lo, hi);
  }

  /** Only the first '-' separates: "1-2-3" makes `int("2-3")` raise. */
  lemma ExpandRangeSecondDash()
    ensures ExpandRange("1-2-3").Failure?
  {
    StripUnchanged("1-2-3");
    StripUnchanged("2-3");
    assert IndexOf("1-2-3", '-') == Some(1);
    assert "1-2-3"[2..] == "2-3";
    assert ParseInt("2-3") == None;
  }

  // ---------------------------------------------------------------------
  // parse_subprocess_cell

  predicate IsCellSeparator(c: char) {
    c == ',' || c == '\n' || c == ';'
  }

  predicate NoSeparator(s: string) {
    forall i :: 0 <= i < |s| ==> !IsCellSeparator(s[i])
  }

  /** `re.split(r"[,\n;]", s)`: the pieces between separators, including the
      empty ones, so there is always one piece more than separators. */
  function SplitCell(s: string): (parts: seq<string>)
    ensures |parts| >= 1
  {
    if s == [] then [""]
    else
      var ps := SplitCell(s[..|s| - 1]);
      var c := s[|s| - 1];
      if IsCellSeparator(c) then ps + [""] else ps[..|ps| - 1] + [ps[|ps| - 1] + [c]]
  }

  /** The parts joined with one separator between neighbours. */
  function JoinWith(parts: seq<string>, sep: char): string
    requires |parts| >= 1
  {
    if |parts| == 1 then parts[0] else JoinWith(parts[..|parts| - 1], sep) + [sep] + parts[|parts| - 1]
  }

  /** No piece holds a separator. */
  lemma {:induction false} SplitCellPieces(s: string)
    ensures forall k :: 0 <= k < |SplitCell(s)| ==> NoSeparator(SplitCell(s)[k])
  {
    if s != [] {
      SplitCellPieces(s[..|s| - 1]);
      var ps := SplitCell(s[..|s| - 1]);
      var c := s[|s| - 1];
      if !IsCellSeparator(c) {
        var last := ps[|ps| - 1] + [c];
        assert NoSeparator(last) by {
          assert NoSeparator(ps[|ps| - 1]);
        }
      }
    }
  }

  /** A character that is not a separator extends the last piece. */
  lemma SplitCellSnoc(s: string, c: char)
    requires !IsCellSeparator(c)
    ensures SplitCell(s + [c]) == SplitCell(s)[..|SplitCell(s)| - 1] + [SplitCell(s)[|SplitCell(s)| - 1] + [c]]
  {
    assert (s + [c])[..|s|] == s;
  }

  /** Extending the last piece by `w` and then by `c` extends it by `w + [c]`. */
  lemma ExtendLastTwice(p: seq<string>, w: string, c: char)
    requires |p| >= 1
    ensures var ps := p[..|p| - 1] + [p[|p| - 1] + w];
      ps[..|ps| - 1] + [ps[|ps| - 1] + [c]] == p[..|p| - 1] + [p[|p| - 1] + (w + [c])]
  {
    var ps := p[..|p| - 1] + [p[|p| - 1] + w];
    assert ps[..|ps| - 1] == p[..|p| - 1];
    assert (p[|p| - 1] + w) + [c] == p[|p| - 1] + (w + [c]);
  }

  /** Text free of separators extends the last piece. */
  lemma {:induction false} SplitAppendWord(s: string, w: string)
    requires NoSeparator(w)
    ensures |SplitCell(s + w)| == |SplitCell(s)|
    ensures SplitCell(s + w) == SplitCell(s)[..|SplitCell(s)| - 1] + [SplitCell(s)[|SplitCell(s)| - 1] + w]
    decreases |w|
  {
    var p := SplitCell(s);
    if w == [] {
      assert s + w == s;
      assert p[|p| - 1] + w == p[|p| - 1];
      assert p[..|p| - 1] + [p[|p| - 1]] == p;
    } else {
      var w' := w[..|w| - 1];
      var c := w[|w| - 1];
      SplitAppendWord(s, w');
      SplitCellSnoc(s + w', c);
      ExtendLastTwice(p, w', c);
      assert w' + [c] == w;
      assert (s + w') + [c] == s + w;
    }
  }

  /** Filling an empty last piece with `w` gives `w` as the last piece. */
  lemma FillEmptyLast(init: seq<string>, w: string)
    ensures var q := init + [""];
      q[..|q| - 1] + [q[|q| - 1] + w] == init + [w]
  {
    var q := init + [""];
    assert q[..|q| - 1] == init;
    assert q[|q| - 1] + w == w;
  }

  /** A separator after the text starts a new, empty piece. */
  lemma SplitCellSeparator(s: string, sep: char)
    requires IsCellSeparator(sep)
    ensures SplitCell(s + [sep]) == SplitCell(s) + [""]
  {
    assert (s + [sep])[..|s|] == s;
  }

  /** Text free of separators is one piece. */
  lemma SplitWord(w: string)
    requires NoSeparator(w)
    ensures SplitCell(w) == [w]
  {
    SplitAppendWord([], w);
    FillEmptyLast([], w);
    assert [] + w == w;
    assert SplitCell([]) == [] + [""];
  }

  /** A separator and a separator-free piece after text add that piece. */
  lemma SplitJoinStep(j: string, sep: char, last: string, init: seq<string>)
    requires SplitCell(j) == init && IsCellSeparator(sep) && NoSeparator(last)
    ensures SplitCell(j + [sep] + last) == init + [last]
  {
    SplitCellSeparator(j, sep);
    SplitAppendWord(j + [sep], last);
    FillEmptyLast(init, last);
  }

  /** Splitting undoes joining: pieces free of separators, joined with any
      separator, split back into the same pieces. */
  lemma {:induction false} SplitJoin(parts: seq<string>, sep: char)
    requires |parts| >= 1 && IsCellSeparator(sep)
    requires forall k :: 0 <= k < |parts| ==> NoSeparator(parts[k])
    ensures SplitCell(JoinWith(parts, sep)) == parts
  {
    if |parts| == 1 {
      SplitWord(parts[0]);
    } else {
      var init := parts[..|parts| - 1];
      var last := parts[|parts| - 1];
      SplitJoin(init, sep);
      SplitJoinStep(JoinWith(init, sep), sep, last, init);
      assert init + [last] == parts;
    }
  }

  /** Each part through `expand_range`, in order; the first ValueError ends it. */
  function ExpandAll(parts: seq<string>): (r: Result<seq<string>, PyError>)
    ensures parts == [] ==> r == Success([])
  {
    if parts == [] then Success([])
    else
      match ExpandAll(parts[..|parts| - 1])
      case Failure(e) => Failure(e)
      case Success(a) =>
        match ExpandRange(parts[|parts| - 1])
        case Failure(e) => Failure(e)
        case Success(b) => Success(a + b)
  }

  /** Every id the parts expand to is stripped and made of digits, '-' and the
      parts' own characters. */
  lemma {:induction false} ExpandAllClean(parts: seq<string>)
    requires ExpandAll(parts).Success?
    ensures forall j :: 0 <= j < |ExpandAll(parts).value| ==>
      var x := ExpandAll(parts).value[j];
      Strip(x) == x && forall c :: c in x ==> IsDigit(c) || c == '-' || exists k :: 0 <= k < |parts| && c in parts[k]
  {
    if parts != [] {
      var init := parts[..|parts| - 1];
      var last := parts[|parts| - 1];
      ExpandAllClean(init);
      ExpandRangeClean(last);
      var a := ExpandAll(init).value;
      var b := ExpandRange(last).value;
      assert ExpandAll(parts).value == a + b;
      forall j | 0 <= j < |a + b|
        ensures Strip((a + b)[j]) == (a + b)[j]
        ensures forall c :: c in (a + b)[j] ==> IsDigit(c) || c == '-' || exists k :: 0 <= k < |parts| && c in parts[k]
      {
        forall c | c in (a + b)[j] && !IsDigit(c) && c != '-' ensures exists k :: 0 <= k < |parts| && c in parts[k] {
          if j < |a| {
            var k :| 0 <= k < |init| && c in init[k];
            assert parts[k] == init[k];
          } else {
            assert (a + b)[j] == b[j - |a|];
            assert c in parts[|parts| - 1];
          }
        }
      }
    }
  }

  /** `[x for x in ids if x]` */
  function DropEmpty(ids: seq<string>): (r: seq<string>)
    ensures forall j :: 0 <= j < |r| ==> r[j] != []
    ensures forall x :: x in r <==> x in ids && x != []
  {
    if ids == [] then []
    else if ids[|ids| - 1] == [] then DropEmpty(ids[..|ids| - 1])
    else DropEmpty(ids[..|ids| - 1]) + [ids[|ids| - 1]]
  }

  /** What `parse_subprocess_cell(cell)` returns, or the ValueError it raises. */
  function SubprocessIds(cell: Value): (r: Result<seq<string>, PyError>)
    ensures IsNa(cell) || Strip(PyStr(cell)) == [] ==> r == Success([])
    ensures r.Success? ==> forall j :: 0 <= j < |r.value| ==> r.value[j] != []
  {
    if IsNa(cell) || Strip(PyStr(cell)) == [] then Success([])
    else
      match ExpandAll(SplitCell(PyStr(cell)))
      case Success(ids) => Success(DropEmpty(ids))
      case Failure(e) => Failure(e)
  }

  /** The cell raises exactly when one of its pieces does, and otherwise
      gives the non-empty ids its pieces expand to. */
  lemma SubprocessIdsMeaning(cell: Value)
    ensures SubprocessIds(cell).Failure? <==>
      !IsNa(cell) && Strip(PyStr(cell)) != [] && ExpandAll(SplitCell(PyStr(cell))).Failure?
    ensures SubprocessIds(cell).Success? && !IsNa(cell) && Strip(PyStr(cell)) != [] ==>
      forall x :: x in SubprocessIds(cell).value <==> x in ExpandAll(SplitCell(PyStr(cell))).value && x != []
  {
  }

  /** `parse_subprocess_cell(cell)` */
  method ParseSubprocessCell(cell: Value) returns (r: Result<seq<string>, PyError>)
    ensures r == SubprocessIds(cell)
  {
    if IsNa(cell) || Strip(PyStr(cell)) == [] {
      return Success([]);
    }
    var expanded := ExpandParts(SplitCell(PyStr(cell)));
    if expanded.Failure? {
      return Failure(expanded.error);
    }
    var kept := KeepNonEmpty(expanded.value);
    return Success(kept);
  }

  /** The loop of `parse_subprocess_cell` over the pieces: each one through
      `expand_range`, the results concatenated; the first ValueError escapes. */
  method ExpandParts(parts: seq<string>) returns (r: Result<seq<string>, PyError>)
    ensures r == ExpandAll(parts)
  {
    var ids: seq<string> := [];
    for j := 0 to |parts|
      invariant ExpandAll(parts[..j]) == Success(ids)
    {
      assert parts[..j + 1][..j] == parts[..j];
      var expanded := ExpandRange(parts[j]);
      if expanded.Failure? {
        assert ExpandAll(parts[..j + 1]) == Failure(expanded.error);
        ExpandAllPrefixFails(parts, j + 1);
        return Failure(expanded.error);
      }
      ids := ids + expanded.value;
    }
    assert parts[..|parts|] == parts;
    return Success(ids);
  }

  /** The final filter `[x for x in ids if x]`. */
  method KeepNonEmpty(ids: seq<string>) returns (kept: seq<string>)
    ensures kept == DropEmpty(ids)
  {
    kept := [];
    for j := 0 to |ids|
      invariant kept == DropEmpty(ids[..j])
    {
      assert ids[..j + 1][..j] == ids[..j];
      if ids[j] != [] {
        kept := kept + [ids[j]];
      }
    }
    assert ids[..|ids|] == ids;
  }

  /** Once a prefix of the parts fails, the whole cell fails the same way. */
  lemma {:induction false} ExpandAllPrefixFails(parts: seq<string>, n: nat)
    requires n <= |parts| && ExpandAll(parts[..n]).Failure?
    ensures ExpandAll(parts) == ExpandAll(parts[..n])
    decreases |parts| - n
  {
    if n < |parts| {
      assert parts[..n + 1][..n] == parts[..n];
      assert ExpandAll(parts[..n + 1]) == ExpandAll(parts[..n]);
      ExpandAllPrefixFails(parts, n + 1);
    } else {
      assert parts[..n] == parts;
    }
  }

  /** Every id a cell yields is non-empty, already stripped and free of separators. */
  lemma SubprocessIdsClean(cell: Value)
    requires SubprocessIds(cell).Success?
    ensures forall j :: 0 <= j < |SubprocessIds(cell).value| ==>
      var id := SubprocessIds(cell).value[j];
      id != [] && Strip(id) == id && NoSeparator(id)
  {
    if !(IsNa(cell) || Strip(PyStr(cell)) == []) {
      var parts := SplitCell(PyStr(cell));
      SplitCellPieces(PyStr(cell));
      ExpandAllClean(parts);
      var ids := ExpandAll(parts).value;
      var kept := DropEmpty(ids);
      assert SubprocessIds(cell).value == kept;
      forall j | 0 <= j < |kept| ensures Strip(kept[j]) == kept[j] && NoSeparator(kept[j]) {
        var id := kept[j];
        assert id in kept && id in ids;
        var m :| 0 <= m < |ids| && ids[m] == id;
        forall i | 0 <= i < |id| ensures !IsCellSeparator(id[i]) {
          var c := id[i];
          assert c in ids[m];
          if !(IsDigit(c) || c == '-') {
            var k :| 0 <= k < |parts| && c in parts[k];
          }
        }
      }
    }
  }

  /** The unfolding of `parse_subprocess_cell` for a text cell that is not blank. */
  lemma SubprocessIdsOfText(cell: string, ids: seq<string>)
    requires Strip(cell) != [] && ExpandAll(SplitCell(cell)) == Success(ids)
    ensures SubprocessIds(Str(cell)) == Success(DropEmpty(ids))
  {
    assert PyStr(Str(cell)) == cell;
    assert !IsNa(Str(cell));
  }

  predicate PlainNumbers(words: seq<string>) {
    |words| >= 1 && forall k :: 0 <= k < |words| ==> words[k] != [] && AllDigits(words[k])
  }

  lemma JoinedNumbersSplit(words: seq<string>)
    requires PlainNumbers(words)
    ensures SplitCell(JoinWith(words, ',')) == words
  {
    forall k | 0 <= k < |words| ensures NoSeparator(words[k]) {
      assert AllDigits(words[k]);
    }
    SplitJoin(words, ',');
  }

  lemma JoinedNumbersStripped(words: seq<string>)
    requires PlainNumbers(words)
    ensures Strip(JoinWith(words, ',')) == JoinWith(words, ',') != []
  {
    var cell := JoinWith(words, ',');
    JoinWithEnds(words, ',');
    assert IsDigit(words[0][0]) && IsDigit(words[|words| - 1][|words[|words| - 1]| - 1]);
    StripUnchanged(cell);
  }

  /** A cell listing plain numbers separated by commas parses back to those
      numbers, in order. */
  lemma ParseJoinedNumbers(words: seq<string>)
    requires PlainNumbers(words)
    ensures SubprocessIds(Str(JoinWith(words, ','))) == Success(words)
  {
    JoinedNumbersSplit(words);
    ExpandAllWords(words);
    JoinedNumbersStripped(words);
    DropEmptyKeeps(words);
    SubprocessIdsOfText(JoinWith(words, ','), words);
  }

  lemma {:induction false} JoinWithEnds(parts: seq<string>, sep: char)
    requires |parts| >= 1 && forall k :: 0 <= k < |parts| ==> parts[k] != []
    ensures JoinWith(parts, sep) != []
    ensures JoinWith(parts, sep)[0] == parts[0][0]
    ensures JoinWith(parts, sep)[|JoinWith(parts, sep)| - 1] == parts[|parts| - 1][|parts[|parts| - 1]| - 1]
  {
    if |parts| > 1 {
      JoinWithEnds(parts[..|parts| - 1], sep);
    }
  }

  /** A plain number expands to itself. */
  lemma ExpandDigits(w: string)
    requires w != [] && AllDigits(w)
    ensures ExpandRange(w) == Success([w])
  {
    assert '-' !in w by { assert AllDigits(w); }
    StripUnchanged(w);
  }

  /** One more part: its expansion is appended. */
  lemma ExpandAllSnoc(init: seq<string>, last: string, a: seq<string>, b: seq<string>)
    requires ExpandAll(init) == Success(a) && ExpandRange(last) == Success(b)
    ensures ExpandAll(init + [last]) == Success(a + b)
  {
    assert (init + [last])[..|init|] == init;
  }

  lemma {:induction false} ExpandAllWords(words: seq<string>)
    requires forall k :: 0 <= k < |words| ==> words[k] != [] && AllDigits(words[k])
    ensures ExpandAll(words) == Success(words)
  {
    if words != [] {
      var init := words[..|words| - 1];
      var last := words[|words| - 1];
      ExpandAllWords(init);
      ExpandDigits(last);
      ExpandAllSnoc(init, last, init, [last]);
      assert init + [last] == words;
    }
  }

  lemma {:induction false} DropEmptyKeeps(ids: seq<string>)
    requires forall j :: 0 <= j < |ids| ==> ids[j] != []
    ensures DropEmpty(ids) == ids
  {
    if ids != [] {
      DropEmptyKeeps(ids[..|ids| - 1]);
    }
  }

  // ---------------------------------------------------------------------
  // build_hauptprozess_json

  /** One row of the process table: Prozessnummer, Prozessart and
      "Verknüpfungen Prozessebene". */
  datatype ProcessRow = ProcessRow(number: Value, kind: Value, links: Value)

  function Zeros(k: nat): (z: string)
    ensures |z| == k && forall i :: 0 <= i < k ==> z[i] == '0'
  {
    seq(k, _ => '0')
  }

  /** Length of the run of '0' that ends `t`. */
  function TrailingZeros(t: string): (z: nat)
    ensures z <= |t|
    ensures forall i :: |t| - z <= i < |t| ==> t[i] == '0'
    ensures z < |t| ==> t[|t| - z - 1] != '0'
  {
    if t != [] && t[|t| - 1] == '0' then TrailingZeros(t[..|t| - 1]) + 1 else 0
  }

  /** Removes a `\.0+` that ends `t`. */
  function DropZeroDecimal(t: string): string {
    var z := TrailingZeros(t);
    if 1 <= z < |t| && t[|t| - z - 1] == '.' then t[..|t| - z - 1] else t
  }

  /** `re.sub(r"\.0+$", "", s)`: `$` also matches before one final newline. */
  function StripZeroDecimal(s: string): (r: string)
    ensures |r| <= |s|
    ensures '.' !in s ==> r == s
  {
    if s != [] && s[|s| - 1] == '\n' then
      assert s == s[..|s| - 1] + "\n";
      DropZeroDecimal(s[..|s| - 1]) + "\n"
    else
      DropZeroDecimal(s)
  }

  lemma TrailingZerosOf(p: string, k: nat)
    requires p == [] || p[|p| - 1] != '0'
    ensures TrailingZeros(p + Zeros(k)) == k
    decreases k
  {
    if k > 0 {
      assert (p + Zeros(k))[..|p| + k - 1] == p + Zeros(k - 1);
      TrailingZerosOf(p, k - 1);
    } else {
      assert p + Zeros(k) == p;
    }
  }

  /** The zero decimal goes, whatever comes before it. */
  lemma StripZeroDecimalRemoves(p: string, k: nat, newline: bool)
    requires k >= 1
    ensures StripZeroDecimal(p + "." + Zeros(k) + (if newline then "\n" else "")) == p + (if newline then "\n" else "")
  {
    var t := p + "." + Zeros(k);
    TrailingZerosOf(p + ".", k);
    assert t[|t| - k - 1] == '.';
    assert t[..|t| - k - 1] == p;
    assert DropZeroDecimal(t) == p;
    if newline {
      var s := t + "\n";
      assert s[..|s| - 1] == t;
    } else {
      assert t + "" == t && t[|t| - 1] == '0';
    }
  }

  /** Only a zero decimal at the very end (before an optional final newline) goes. */
  lemma StripZeroDecimalKeeps(s: string)
    requires s == [] || (s[|s| - 1] != '0' && (s[|s| - 1] == '\n' ==> |s| < 2 || s[|s| - 2] != '0'))
    ensures StripZeroDecimal(s) == s
  {
    if s != [] && s[|s| - 1] == '\n' {
      assert s[..|s| - 1] + "\n" == s;
    }
  }

  /** The key column's text with a trailing `.0` removed. */
  function NormalizeId(v: Value): (r: string)
    ensures |r| <= |PyStr(v)|
    ensures '.' !in PyStr(v) ==> r == PyStr(v)
  {
    StripZeroDecimal(PyStr(v))
  }

  /** A Prozessnummer that Excel handed over as a float prints like the integer. */
  lemma NormalizeIntegralFloat(n: int)
    ensures NormalizeId(Float(n as real, IntToString(n) + ".0")) == IntToString(n)
    ensures NormalizeId(Int(n)) == IntToString(n)
  {
    StripZeroDecimalRemoves(IntToString(n), 1, false);
    assert IntToString(n) + ".0" == IntToString(n) + "." + Zeros(1) + "";
    assert IntToString(n) + "" == IntToString(n);
    assert forall k :: 0 <= k < |IntToString(n)| ==> IntToString(n)[k] != '.';
  }

  /** `df[col_art].str.lower() == "hauptprozess"`: only text cells compare. */
  predicate IsHauptprozess(kind: Value) {
    kind.Str? && Lower(kind.s) == "hauptprozess"
  }

  /** Only text of the word's length qualifies, and the sheet's own spelling
      does. */
  lemma HauptprozessKind(kind: Value)
    ensures IsHauptprozess(kind) ==> kind.Str? && |kind.s| == |"hauptprozess"|
    ensures kind == Str("Hauptprozess") ==> IsHauptprozess(kind)
  {
    if kind == Str("Hauptprozess") {
      assert LowerChar('H') == 'h';
      assert Lower(kind.s) == "hauptprozess";
    }
  }

  /** `build_hauptprozess_json(rows)`: the Hauptprozess rows in table order,
      each writing its parsed cell under its normalized id. */
  function HauptprozessMap(rows: seq<ProcessRow>): (r: Result<OrderedMap<string, seq<string>>, PyError>)
    ensures r.Success? ==> ValidMap(r.value)
  {
    if rows == [] then Success(EmptyMap())
    else
      var row := rows[|rows| - 1];
      match HauptprozessMap(rows[..|rows| - 1])
      case Failure(e) => Failure(e)
      case Success(m) =>
        if !IsHauptprozess(row.kind) then Success(m)
        else
          match SubprocessIds(row.links)
          case Failure(e) => Failure(e)
          case Success(ids) => Success(Put(m, NormalizeId(row.number), ids))
  }

  /** `build_hauptprozess_json` */
  method BuildHauptprozessJson(rows: seq<ProcessRow>) returns (r: Result<OrderedMap<string, seq<string>>, PyError>)
    ensures r == HauptprozessMap(rows)
  {
    var result: OrderedMap<string, seq<string>> := EmptyMap();
    for j := 0 to |rows|
      invariant HauptprozessMap(rows[..j]) == Success(result)
    {
      assert rows[..j + 1][..j] == rows[..j];
      var row := rows[j];
      if IsHauptprozess(row.kind) {
        var subprocesses := ParseSubprocessCell(row.links);
        if subprocesses.Failure? {
          HauptprozessPrefixFails(rows, j + 1);
          return Failure(subprocesses.error);
        }
        result := Put(result, NormalizeId(row.number), subprocesses.value);
      }
    }
    assert rows[..|rows|] == rows;
    return Success(result);
  }

  lemma {:induction false} HauptprozessPrefixFails(rows: seq<ProcessRow>, n: nat)
    requires n <= |rows| && HauptprozessMap(rows[..n]).Failure?
    ensures HauptprozessMap(rows) == HauptprozessMap(rows[..n])
    decreases |rows| - n
  {
    if n < |rows| {
      assert rows[..n + 1][..n] == rows[..n];
      HauptprozessPrefixFails(rows, n + 1);
    } else {
      assert rows[..n] == rows;
    }
  }

  /** A Hauptprozess row whose cell raises. */
  predicate BadRow(row: ProcessRow) {
    IsHauptprozess(row.kind) && SubprocessIds(row.links).Failure?
  }

  /** One row's step: the map fails when it failed before or the row is bad. */
  lemma HauptprozessStepFails(rows: seq<ProcessRow>)
    requires rows != []
    ensures HauptprozessMap(rows).Failure? <==>
      HauptprozessMap(rows[..|rows| - 1]).Failure? || BadRow(rows[|rows| - 1])
  {
  }

  predicate SomeBadRow(rows: seq<ProcessRow>) {
    exists i :: 0 <= i < |rows| && BadRow(rows[i])
  }

  /** Some row is bad when some earlier row is or the last one is. */
  lemma SomeBadRowSnoc(rows: seq<ProcessRow>)
    requires rows != []
    ensures SomeBadRow(rows) <==> SomeBadRow(rows[..|rows| - 1]) || BadRow(rows[|rows| - 1])
  {
    var init := rows[..|rows| - 1];
    if i :| 0 <= i < |rows| && BadRow(rows[i]) {
      if i < |rows| - 1 {
        assert init[i] == rows[i];
      }
    }
    if i :| 0 <= i < |init| && BadRow(init[i]) {
      assert rows[i] == init[i];
    }
  }

  /** The map fails exactly when some Hauptprozess row's cell does not parse. */
  lemma {:induction false} HauptprozessFailure(rows: seq<ProcessRow>)
    ensures HauptprozessMap(rows).Failure? <==> exists i :: 0 <= i < |rows| && BadRow(rows[i])
  {
    if rows != [] {
      HauptprozessFailure(rows[..|rows| - 1]);
      HauptprozessStepFails(rows);
      SomeBadRowSnoc(rows);
    }
  }

  /** Row `row` is a Hauptprozess row that writes `key`. */
  predicate WritesKey(row: ProcessRow, key: string) {
    IsHauptprozess(row.kind) && NormalizeId(row.number) == key
  }

  /** Row i is the last row that writes its key. */
  predicate LastWriter(rows: seq<ProcessRow>, i: nat)
    requires i < |rows|
  {
    IsHauptprozess(rows[i].kind) && forall j :: i < j < |rows| ==> !WritesKey(rows[j], NormalizeId(rows[i].number))
  }

  /** One row's step: the keys after it are the keys before it plus the key the row writes. */
  lemma HauptprozessStepKeys(rows: seq<ProcessRow>)
    requires rows != [] && HauptprozessMap(rows).Success?
    ensures HauptprozessMap(rows[..|rows| - 1]).Success?
    ensures forall key :: key in HauptprozessMap(rows).value.entries <==>
      key in HauptprozessMap(rows[..|rows| - 1]).value.entries || WritesKey(rows[|rows| - 1], key)
  {
  }

  /** A key written by a row of a prefix is written by a row of the whole. */
  lemma PrefixWriter(rows: seq<ProcessRow>, n: nat, key: string)
    requires n <= |rows|
    requires exists i :: 0 <= i < n && WritesKey(rows[..n][i], key)
    ensures exists i :: 0 <= i < |rows| && WritesKey(rows[i], key)
  {
    var i :| 0 <= i < n && WritesKey(rows[..n][i], key);
    assert rows[..n][i] == rows[i];
  }

  /** The normalized id of Hauptprozess row i is a key. */
  lemma {:induction false} HauptprozessKeyAt(rows: seq<ProcessRow>, i: nat)
    requires HauptprozessMap(rows).Success?
    requires i < |rows| && IsHauptprozess(rows[i].kind)
    ensures NormalizeId(rows[i].number) in HauptprozessMap(rows).value.entries
    decreases |rows|
  {
    var n := |rows| - 1;
    var key := NormalizeId(rows[i].number);
    HauptprozessStepKeys(rows);
    if i < n {
      var init := rows[..n];
      assert init[i] == rows[i];
      HauptprozessKeyAt(init, i);
      assert key in HauptprozessMap(init).value.entries;
    } else {
      assert WritesKey(rows[n], key);
    }
  }

  /** Every Hauptprozess row's normalized id is a key. */
  lemma HauptprozessKeysCover(rows: seq<ProcessRow>)
    requires HauptprozessMap(rows).Success?
    ensures forall i :: 0 <= i < |rows| && IsHauptprozess(rows[i].kind) ==>
      NormalizeId(rows[i].number) in HauptprozessMap(rows).value.entries
  {
    forall i | 0 <= i < |rows| && IsHauptprozess(rows[i].kind)
      ensures NormalizeId(rows[i].number) in HauptprozessMap(rows).value.entries
    {
      HauptprozessKeyAt(rows, i);
    }
  }

  /** Every key is the normalized id of some Hauptprozess row. */
  lemma {:induction false} HauptprozessKeysWritten(rows: seq<ProcessRow>)
    requires HauptprozessMap(rows).Success?
    ensures forall key :: key in HauptprozessMap(rows).value.entries ==>
      exists i :: 0 <= i < |rows| && WritesKey(rows[i], key)
  {
    if rows != [] {
      var n := |rows| - 1;
      var init := rows[..n];
      HauptprozessStepKeys(rows);
      HauptprozessKeysWritten(init);
      var r := HauptprozessMap(rows).value;
      forall key | key in r.entries ensures exists i :: 0 <= i < |rows| && WritesKey(rows[i], key) {
        if key in HauptprozessMap(init).value.entries {
          PrefixWriter(rows, n, key);
        } else {
          assert WritesKey(rows[n], key);
        }
      }
    }
  }

  /** A last writer of the whole, other than the last row, is a last writer
      of the prefix, and the last row does not overwrite its key. */
  lemma LastWriterOfPrefix(rows: seq<ProcessRow>, i: nat)
    requires i < |rows| - 1 && LastWriter(rows, i)
    ensures LastWriter(rows[..|rows| - 1], i) && rows[..|rows| - 1][i] == rows[i]
    ensures !WritesKey(rows[|rows| - 1], NormalizeId(rows[i].number))
  {
    var init := rows[..|rows| - 1];
    forall j | i < j < |init| ensures !WritesKey(init[j], NormalizeId(init[i].number)) {
      assert init[j] == rows[j];
    }
  }

  /** One row's step on the values: a Hauptprozess row writes its parsed cell
      under its key, any other row changes nothing. */
  lemma HauptprozessStepEntries(rows: seq<ProcessRow>)
    requires rows != [] && HauptprozessMap(rows).Success?
    ensures HauptprozessMap(rows[..|rows| - 1]).Success?
    ensures var row := rows[|rows| - 1];
      var m := HauptprozessMap(rows[..|rows| - 1]).value.entries;
      HauptprozessMap(rows).value.entries ==
        if IsHauptprozess(row.kind) then m[NormalizeId(row.number) := SubprocessIds(row.links).value] else m
  {
  }

  /** Each key holds the parsed cell of the last row that writes it. */
  lemma {:induction false} HauptprozessLastWins(rows: seq<ProcessRow>)
    requires HauptprozessMap(rows).Success?
    ensures forall i :: 0 <= i < |rows| && LastWriter(rows, i) ==>
      && NormalizeId(rows[i].number) in HauptprozessMap(rows).value.entries
      && SubprocessIds(rows[i].links) == Success(HauptprozessMap(rows).value.entries[NormalizeId(rows[i].number)])
  {
    if rows != [] {
      var init := rows[..|rows| - 1];
      HauptprozessStepEntries(rows);
      HauptprozessLastWins(init);
      var r := HauptprozessMap(rows).value;
      forall i | 0 <= i < |rows| && LastWriter(rows, i)
        ensures NormalizeId(rows[i].number) in r.entries
        ensures SubprocessIds(rows[i].links) == Success(r.entries[NormalizeId(rows[i].number)])
      {
        if i < |init| {
          LastWriterOfPrefix(rows, i);
        }
      }
    }
  }

  // ---------------------------------------------------------------------
  // matrix_to_json

  /** A cell after cleaning: an integral float becomes an int. */
  function CleanValue(v: Value): (r: Value)
    ensures !v.Float? ==> r == v
    ensures v.Float? && IsIntegral(v.f) ==> r.Int? && r.i as real == v.f
    ensures r.Float? ==> r == v && !IsIntegral(r.f)
    ensures IsNa(r) <==> IsNa(v)
  {
    if v.Float? && IsIntegral(v.f) then Int(v.f.Floor) else v
  }

  /** The non-missing values of a column, in order (`pd.notna(value)`). */
  function Present(vs: seq<Value>): (r: seq<Value>)
    ensures |r| <= |vs|
    ensures forall j :: 0 <= j < |r| ==> !IsNa(r[j])
  {
    if vs == [] then []
    else
      var rest := Present(vs[..|vs| - 1]);
      if IsNa(vs[|vs| - 1]) then rest else rest + [vs[|vs| - 1]]
  }

  /** The non-missing values of a column, cleaned, in order. */
  function Cleaned(vs: seq<Value>): (r: seq<Value>)
    ensures |r| <= |vs|
  {
    var p := Present(vs);
    seq(|p|, i requires 0 <= i < |p| => CleanValue(p[i]))
  }

  /** Number of missing values. */
  function CountNa(vs: seq<Value>): nat {
    if vs == [] then 0 else CountNa(vs[..|vs| - 1]) + if IsNa(vs[|vs| - 1]) then 1 else 0
  }

  /** Exactly the missing values are dropped, and every other value is kept. */
  lemma {:induction false} PresentSound(vs: seq<Value>)
    ensures |Present(vs)| + CountNa(vs) == |vs|
    ensures forall j :: 0 <= j < |vs| && !IsNa(vs[j]) ==> vs[j] in Present(vs)
  {
    if vs != [] {
      var init := vs[..|vs| - 1];
      PresentSound(init);
      forall j | 0 <= j < |vs| && !IsNa(vs[j]) ensures vs[j] in Present(vs) {
        if j < |init| {
          assert vs[j] == init[j];
        }
      }
    }
  }

  /** Nothing but the missing values is dropped, and no missing value and no
      integral float remains; every value keeps its numeric meaning. */
  lemma CleanedSound(vs: seq<Value>)
    ensures |Cleaned(vs)| + CountNa(vs) == |vs|
    ensures forall j :: 0 <= j < |Cleaned(vs)| ==>
      !IsNa(Cleaned(vs)[j]) && !(Cleaned(vs)[j].Float? && IsIntegral(Cleaned(vs)[j].f))
    ensures forall j :: 0 <= j < |vs| && !IsNa(vs[j]) ==> CleanValue(vs[j]) in Cleaned(vs)
  {
    PresentSound(vs);
    var p := Present(vs);
    forall j | 0 <= j < |vs| && !IsNa(vs[j]) ensures CleanValue(vs[j]) in Cleaned(vs) {
      var k :| 0 <= k < |p| && p[k] == vs[j];
      assert Cleaned(vs)[k] == CleanValue(vs[j]);
    }
  }

  /** A column without missing values keeps all of them. */
  lemma {:induction false} PresentAll(vs: seq<Value>)
    requires forall j :: 0 <= j < |vs| ==> !IsNa(vs[j])
    ensures Present(vs) == vs
  {
    if vs != [] {
      PresentAll(vs[..|vs| - 1]);
    }
  }

  /** A cleaned column is already clean. */
  lemma CleanedIdempotent(vs: seq<Value>)
    ensures Cleaned(Cleaned(vs)) == Cleaned(vs)
  {
    var r := Cleaned(vs);
    forall j | 0 <= j < |r| ensures !IsNa(r[j]) {
      assert r[j] == CleanValue(Present(vs)[j]);
    }
    PresentAll(r);
    forall j | 0 <= j < |r| ensures CleanValue(r[j]) == r[j] {
      assert r[j] == CleanValue(Present(vs)[j]);
    }
  }

  /** Dropping missing values works value by value. */
  lemma {:induction false} PresentAppend(a: seq<Value>, b: seq<Value>)
    ensures Present(a + b) == Present(a) + Present(b)
    decreases |b|
  {
    if b == [] {
      assert a + b == a;
    } else {
      var b' := b[..|b| - 1];
      PresentAppend(a, b');
      assert (a + b)[..|a + b| - 1] == a + b';
    }
  }

  /** Cleaning works value by value: it distributes over concatenation. */
  lemma CleanedAppend(a: seq<Value>, b: seq<Value>)
    ensures Cleaned(a + b) == Cleaned(a) + Cleaned(b)
  {
    PresentAppend(a, b);
  }

  /** One more value: cleaned and appended unless it is missing. */
  lemma CleanedSnoc(vs: seq<Value>, v: Value)
    ensures Cleaned(vs + [v]) == Cleaned(vs) + if IsNa(v) then [] else [CleanValue(v)]
  {
    CleanedAppend(vs, [v]);
    assert [v][..0] == [];
  }

  /** The clean-list loop of `matrix_to_json` for one column. */
  method CleanColumn(vs: seq<Value>) returns (cleanList: seq<Value>)
    ensures cleanList == Cleaned(vs)
  {
    cleanList := [];
    for j := 0 to |vs|
      invariant cleanList == Cleaned(vs[..j])
    {
      var v := vs[j];
      CleanedSnoc(vs[..j], v);
      assert vs[..j + 1] == vs[..j] + [v];
      if !IsNa(v) {
        if v.Float? && IsIntegral(v.f) {
          cleanList := cleanList + [Int(v.f.Floor)];
        } else {
          cleanList := cleanList + [v];
        }
      }
    }
    assert vs[..|vs|] == vs;
  }

  /** A sheet as `read_excel(..., header=1)` gives it: the header row and the
      rows below it. */
  datatype Sheet = Sheet(header: seq<Value>, rows: seq<seq<Value>>)

  predicate Rectangular(sheet: Sheet) {
    forall i :: 0 <= i < |sheet.rows| ==> |sheet.rows[i]| == |sheet.header|
  }

  /** Column `c` of the rows after the first (`iloc[1:, c]`). */
  function DataColumn(sheet: Sheet, c: nat): (col: seq<Value>)
    requires Rectangular(sheet) && c < |sheet.header|
    ensures |col| == if |sheet.rows| >= 1 then |sheet.rows| - 1 else 0
    ensures forall i :: 0 <= i < |col| ==> col[i] == sheet.rows[i + 1][c]
  {
    if |sheet.rows| <= 1 then [] else seq(|sheet.rows| - 1, i requires 0 <= i < |sheet.rows| - 1 => sheet.rows[i + 1][c])
  }

  /** Every column cleaned; the first column, dropped by `iloc[:, 1:]`, stays empty. */
  function CleanColumns(sheet: Sheet): (cols: seq<seq<Value>>)
    requires Rectangular(sheet)
    ensures |cols| == |sheet.header|
  {
    seq(|sheet.header|, c requires 0 <= c < |sheet.header| => if c == 0 then [] else Cleaned(DataColumn(sheet, c)))
  }

  /** The object holding `cols[1..n+1]` under `names[1..n+1]`, written in that order. */
  function ColumnsJson<K(==,!new), V>(names: seq<K>, cols: seq<V>, n: nat): (m: OrderedMap<K, V>)
    requires |cols| == |names| && n < |names|
    ensures ValidMap(m)
  {
    if n == 0 then EmptyMap()
    else Put(ColumnsJson(names, cols, n - 1), names[n], cols[n])
  }

  /** The JSON object `matrix_to_json` builds from the first `n` columns after
      the first one. */
  function MatrixJson(sheet: Sheet, n: nat): (m: OrderedMap<Value, seq<Value>>)
    requires Rectangular(sheet) && n < |sheet.header|
    ensures ValidMap(m)
  {
    ColumnsJson(sheet.header, CleanColumns(sheet), n)
  }

  /** `matrix_to_json` without the file I/O: drop the first column and the
      first row under the header, clean every column. */
  method MatrixToJson(sheet: Sheet) returns (m: OrderedMap<Value, seq<Value>>)
    requires Rectangular(sheet)
    ensures |sheet.header| == 0 ==> m == EmptyMap()
    ensures |sheet.header| >= 1 ==> m == MatrixJson(sheet, |sheet.header| - 1)
  {
    if |sheet.header| == 0 {
      m := EmptyMap();
    } else {
      m := AddColumns(sheet);
    }
  }

  /** The column loop of `matrix_to_json`, for a sheet with a header. */
  method AddColumns(sheet: Sheet) returns (m: OrderedMap<Value, seq<Value>>)
    requires Rectangular(sheet) && |sheet.header| >= 1
    ensures m == MatrixJson(sheet, |sheet.header| - 1)
  {
    m := EmptyMap();
    ghost var cols := CleanColumns(sheet);
    var c := 1;
    while c < |sheet.header|
      invariant 1 <= c <= |sheet.header| && m == ColumnsJson(sheet.header, cols, c - 1)
    {
      m := AddColumn(sheet, c, m);
      c := c + 1;
    }
    MatrixJsonDone(sheet, cols, c, m);
  }

  /** After the last column the loop's object is the whole sheet's. */
  lemma MatrixJsonDone(sheet: Sheet, cols: seq<seq<Value>>, c: nat, m: OrderedMap<Value, seq<Value>>)
    requires Rectangular(sheet) && cols == CleanColumns(sheet)
    requires 1 <= c == |sheet.header| && m == ColumnsJson(sheet.header, cols, c - 1)
    ensures m == MatrixJson(sheet, |sheet.header| - 1)
  {
  }

  /** The body of the column loop: clean column `c` and store it under its name. */
  method AddColumn(sheet: Sheet, c: nat, m: OrderedMap<Value, seq<Value>>) returns (m': OrderedMap<Value, seq<Value>>)
    requires Rectangular(sheet) && 1 <= c < |sheet.header|
    requires m == ColumnsJson(sheet.header, CleanColumns(sheet), c - 1)
    ensures m' == ColumnsJson(sheet.header, CleanColumns(sheet), c)
  {
    var cleanList := CleanColumn(DataColumn(sheet, c));
    assert cleanList == CleanColumns(sheet)[c];
    m' := Put(m, sheet.header[c], cleanList);
  }

  /** Adding a name not yet present appends it to the keys. */
  lemma PutNextName<K(!new), V>(m: OrderedMap<K, V>, names: seq<K>, n: nat, v: V)
    requires ValidMap(m) && NoDuplicates(names) && 1 <= n < |names| && m.keys == names[1..n]
    ensures Put(m, names[n], v).keys == names[1..n + 1]
  {
    assert names[n] !in m.keys by {
      forall i | 0 <= i < |m.keys| ensures m.keys[i] != names[n] {
        assert m.keys[i] == names[i + 1];
      }
    }
    assert names[1..n + 1] == names[1..n] + [names[n]];
  }

  /** With distinct names, the object's keys are the names after the first, in order. */
  lemma {:induction false} ColumnsJsonKeys<K(!new), V>(names: seq<K>, cols: seq<V>, n: nat)
    requires |cols| == |names| && n < |names| && NoDuplicates(names)
    ensures ColumnsJson(names, cols, n).keys == names[1..n + 1]
  {
    if n > 0 {
      var m := ColumnsJson(names, cols, n - 1);
      ColumnsJsonKeys(names, cols, n - 1);
      PutNextName(m, names, n, cols[n]);
      assert ColumnsJson(names, cols, n) == Put(m, names[n], cols[n]);
    }
  }

  /** With distinct names, each name holds its own column. */
  lemma {:induction false} ColumnsJsonEntries<K(!new), V>(names: seq<K>, cols: seq<V>, n: nat)
    requires |cols| == |names| && n < |names| && NoDuplicates(names)
    ensures forall c :: 1 <= c <= n ==>
      names[c] in ColumnsJson(names, cols, n).entries && ColumnsJson(names, cols, n).entries[names[c]] == cols[c]
  {
    if n > 0 {
      var m := ColumnsJson(names, cols, n - 1);
      ColumnsJsonEntries(names, cols, n - 1);
      var r := Put(m, names[n], cols[n]);
      assert ColumnsJson(names, cols, n) == r;
      forall c | 1 <= c <= n ensures names[c] in r.entries && r.entries[names[c]] == cols[c] {
        if c < n {
          assert names[c] != names[n];
          assert names[c] in m.entries && m.entries[names[c]] == cols[c];
        }
      }
    }
  }

  /** With distinct column names, the object's keys are the column names after
      the first, in sheet order, each holding that column's cleaned values. */
  lemma MatrixJsonColumns(sheet: Sheet, n: nat)
    requires Rectangular(sheet) && n < |sheet.header|
    requires NoDuplicates(sheet.header)
    ensures MatrixJson(sheet, n).keys == sheet.header[1..n + 1]
    ensures forall c :: 1 <= c <= n ==>
      && sheet.header[c] in MatrixJson(sheet, n).entries
      && MatrixJson(sheet, n).entries[sheet.header[c]] == Cleaned(DataColumn(sheet, c))
  {
    var cols := CleanColumns(sheet);
    ColumnsJsonKeys(sheet.header, cols, n);
    ColumnsJsonEntries(sheet.header, cols, n);
    forall c | 1 <= c <= n ensures cols[c] == Cleaned(DataColumn(sheet, c)) {
    }
  }
}
