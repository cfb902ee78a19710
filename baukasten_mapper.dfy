/** The enhanced process-to-building-kit mapper: the subprocess hierarchy it
    reads from the process sheet, the text cleaning and keyword extraction
    behind its scoring, the adaptive threshold, the merge of subprocess
    matches into their main process, and the filled matrix it writes back. */
module BaukastenMapper {
  import opened Common
  import opened PyText
  import opened PyValue
  import opened CreateDataJson

  // ---------------------------------------------------------------------
  // str.split(sep)

  /** `sep` occurs in `s` starting at index `i`. */
  predicate OccursAt(s: string, sep: string, i: int) {
    0 <= i && i + |sep| <= |s| && s[i..i + |sep|] == sep
  }

  /** The first occurrence of `sep` in `s` at or after `from`. */
  function FindFrom(s: string, sep: string, from: nat): (r: Option<nat>)
    requires sep != [] && from <= |s|
    ensures r.Some? ==> from <= r.value && OccursAt(s, sep, r.value)
    ensures r.Some? ==> forall j :: from <= j < r.value ==> !OccursAt(s, sep, j)
    ensures r.None? ==> forall j :: from <= j ==> !OccursAt(s, sep, j)
    decreases |s| - from
  {
    if OccursAt(s, sep, from) then Some(from)
    else if from == |s| then None
    else FindFrom(s, sep, from + 1)
  }

  /** `s.split(sep)` for a non-empty separator: the pieces between the
      occurrences of `sep`, found left to right without overlap. */
  function SplitOn(s: string, sep: string): (parts: seq<string>)
    requires sep != []
    ensures |parts| >= 1
    ensures forall k :: 0 <= k < |parts| ==> Lacks(parts[k], sep)
    ensures Lacks(s, sep) ==> parts == [s]
    decreases |s|
  {
    match FindFrom(s, sep, 0)
    case None => [s]
    case Some(i) =>
      assert Lacks(s[..i], sep) by {
        forall j | OccursAt(s[..i], sep, j) ensures false {
          assert s[..i][j..j + |sep|] == s[j..j + |sep|];
          assert OccursAt(s, sep, j) && j < i;
        }
      }
      [s[..i]] + SplitOn(s[i + |sep|..], sep)
  }

  /** `sep` does not occur anywhere in `t`. */
  ghost predicate Lacks(t: string, sep: string) {
    forall j :: !OccursAt(t, sep, j)
  }

  lemma OccursAtChar(s: string, sep: string, i: int, t: int)
    requires OccursAt(s, sep, i) && 0 <= t < |sep|
    ensures s[i + t] == sep[t]
  {
    assert s[i..i + |sep|][t] == s[i + t];
  }

  /** Text lacking one of the separator's characters comes back whole. */
  lemma SplitOnAbsent(a: string, sep: string, t: nat)
    requires t < |sep| && sep[t] !in a
    ensures SplitOn(a, sep) == [a]
  {
    forall j | OccursAt(a, sep, j) ensures false {
      OccursAtChar(a, sep, j, t);
    }
  }

  /** The first piece ends at the first separator. */
  lemma SplitOnFirst(a: string, sep: string, rest: string)
    requires sep != [] && forall j :: 0 <= j < |a| ==> a[j] != sep[0]
    ensures SplitOn(a + sep + rest, sep) == [a] + SplitOn(rest, sep)
  {
    var s := a + sep + rest;
    assert s[|a|..|a| + |sep|] == sep;
    assert OccursAt(s, sep, |a|);
    forall j | 0 <= j < |a| && OccursAt(s, sep, j) ensures false {
      OccursAtChar(s, sep, j, 0);
    }
    assert FindFrom(s, sep, 0) == Some(|a|);
    assert s[..|a|] == a;
    assert s[|a| + |sep|..] == rest;
  }

  // ---------------------------------------------------------------------
  // _build_subprocess_hierarchy

  const NumberColumn := "Prozessnummer"
  const KindColumn := "Prozessart"
  const LinkColumn := "Verkn\U{FC}pfungen Prozessebene"

  /** `list(range(lo, hi + 1))` */
  function IntRange(lo: int, hi: int): (r: seq<int>)
    ensures |r| == if hi < lo then 0 else hi - lo + 1
    ensures forall k :: 0 <= k < |r| ==> r[k] == lo + k
    decreases hi - lo
  {
    if hi < lo then [] else [lo] + IntRange(lo + 1, hi)
  }

  /** `int(x.strip())` succeeds. */
  predicate IntText(x: string) {
    ParseInt(Strip(x)).Some?
  }

  /** `[int(x.strip()) for x in parts]`; None where an `int()` raises. */
  function ParseInts(parts: seq<string>): (r: Option<seq<int>>)
    ensures r.Some? <==> forall k :: 0 <= k < |parts| ==> IntText(parts[k])
    ensures r.Some? ==> |r.value| == |parts| && forall k :: 0 <= k < |parts| ==> ParseInt(Strip(parts[k])) == Some(r.value[k])
  {
    if forall k :: 0 <= k < |parts| ==> IntText(parts[k]) then
      Some(seq(|parts|, k requires 0 <= k < |parts| => ParseInt(Strip(parts[k])).value))
    else
      None
  }

  /** The subprocess numbers a linkage text names, or None where the row is
      skipped: a text containing '-' must be exactly two integers around
      " - ", an inclusive range; otherwise a text containing ',' must be
      integers between commas; any other text names nothing. */
  function ParseLinkage(text: string): (r: Option<seq<int>>)
    ensures r.Some? ==> '-' in text || ',' in text
  {
    if '-' in text then
      var parts := SplitOn(text, " - ");
      if |parts| != 2 then None
      else
        match (ParseInt(Strip(parts[0])), ParseInt(Strip(parts[1])))
        case (Some(lo), Some(hi)) => Some(IntRange(lo, hi))
        case _ => None
    else if ',' in text then
      ParseInts(SplitOn(text, ","))
    else
      None
  }

  /** What one process row adds to the hierarchy: its number and its
      subprocesses, for a 'Hauptprozess' row with a parsable linkage; any
      exception inside the `try` skips the row. */
  function HierarchyEntry(row: Record): (r: Option<(int, seq<int>)>)
    requires NumberColumn in row
    ensures r.Some? ==> GetOr(row, KindColumn, Str("")) == Str("Hauptprozess")
    ensures r.Some? ==> !IsNa(GetOr(row, LinkColumn, Str("")))
    ensures r.Some? ==> PyInt(row[NumberColumn]) == Success(r.value.0)
    ensures r.Some? ==> ParseLinkage(PyStr(GetOr(row, LinkColumn, Str("")))) == Some(r.value.1)
    // and every such row does add its entry
    ensures && GetOr(row, KindColumn, Str("")) == Str("Hauptprozess")
            && !IsNa(GetOr(row, LinkColumn, Str("")))
            && ParseLinkage(PyStr(GetOr(row, LinkColumn, Str("")))).Some?
            && PyInt(row[NumberColumn]).Success?
            ==> r == Some((PyInt(row[NumberColumn]).value, ParseLinkage(PyStr(GetOr(row, LinkColumn, Str("")))).value))
  {
    var kind := GetOr(row, KindColumn, Str(""));
    var linkages := GetOr(row, LinkColumn, Str(""));
    if IsNa(linkages) || kind != Str("Hauptprozess") then None
    else
      match ParseLinkage(PyStr(linkages))
      case None => None
      case Some(subs) =>
        match PyInt(row[NumberColumn])
        case Failure(_) => None
        case Success(n) => Some((n, subs))
  }

  /** Every row has a Prozessnummer column (the loader drops rows by it). */
  predicate HasNumbers(rows: seq<Record>) {
    forall i :: 0 <= i < |rows| ==> NumberColumn in rows[i]
  }

  /** A sequence of dict assignments `d[n] = l`, None where a step writes nothing. */
  type Writes = seq<Option<(int, seq<int>)>>

  /** The dict after the writes, in order: a later write to a key replaces
      an earlier one. */
  function ApplyWrites(m: map<int, seq<int>>, ws: Writes): (r: map<int, seq<int>>)
    ensures m.Keys <= r.Keys
    ensures forall n :: n in r ==> (n in m && r[n] == m[n]) || exists i :: 0 <= i < |ws| && ws[i] == Some((n, r[n]))
  {
    if ws == [] then m
    else
      var m' := ApplyWrites(m, ws[..|ws| - 1]);
      match ws[|ws| - 1]
      case None => m'
      case Some(e) => m'[e.0 := e.1]
  }

  /** Step `i` writes key `n`. */
  predicate WritesKey(ws: Writes, i: int, n: int) {
    0 <= i < |ws| && ws[i].Some? && ws[i].value.0 == n
  }

  /** A key is present exactly when it was there before or some step writes it. */
  lemma {:induction false} ApplyWritesKeys(m: map<int, seq<int>>, ws: Writes, n: int)
    ensures n in ApplyWrites(m, ws) <==> n in m || exists i :: WritesKey(ws, i, n)
  {
    if ws != [] {
      var init := ws[..|ws| - 1];
      ApplyWritesKeys(m, init, n);
      if ws[|ws| - 1].Some? && ws[|ws| - 1].value.0 == n {
        assert WritesKey(ws, |ws| - 1, n);
      }
      if exists i :: WritesKey(init, i, n) {
        var i :| WritesKey(init, i, n);
        assert WritesKey(ws, i, n);
      }
      if exists i :: WritesKey(ws, i, n) {
        var i :| WritesKey(ws, i, n);
        if i < |init| {
          assert WritesKey(init, i, n);
        }
      }
    }
  }

  /** A key holds the value of the last step writing it. */
  lemma {:induction false} ApplyWritesLast(m: map<int, seq<int>>, ws: Writes, i: int)
    requires 0 <= i < |ws| && ws[i].Some?
    requires forall j :: i < j < |ws| ==> !WritesKey(ws, j, ws[i].value.0)
    ensures ws[i].value.0 in ApplyWrites(m, ws)
    ensures ApplyWrites(m, ws)[ws[i].value.0] == ws[i].value.1
  {
    if i < |ws| - 1 {
      var init := ws[..|ws| - 1];
      assert init[i] == ws[i];
      forall j | i < j < |init| ensures !WritesKey(init, j, ws[i].value.0) {
        assert init[j] == ws[j];
        assert !WritesKey(ws, j, ws[i].value.0);
      }
      ApplyWritesLast(m, init, i);
      assert !WritesKey(ws, |ws| - 1, ws[i].value.0);
    }
  }

  /** The entries the rows contribute, in order. */
  function HierarchyWrites(rows: seq<Record>): (ws: Writes)
    requires HasNumbers(rows)
    ensures |ws| == |rows| && forall i :: 0 <= i < |rows| ==> ws[i] == HierarchyEntry(rows[i])
  {
    seq(|rows|, i requires 0 <= i < |rows| => HierarchyEntry(rows[i]))
  }

  /** The hierarchy after the loop over `rows`: later rows overwrite earlier
      ones with the same number. */
  function HierarchyOf(rows: seq<Record>): (r: map<int, seq<int>>)
    requires HasNumbers(rows)
    ensures forall n :: n in r ==> exists i :: 0 <= i < |rows| && HierarchyEntry(rows[i]) == Some((n, r[n]))
  {
    ApplyWrites(map[], HierarchyWrites(rows))
  }

  /** A number is in the hierarchy exactly when some 'Hauptprozess' row with
      a parsable linkage carries it; it then holds the subprocesses of the
      last such row. */
  lemma HierarchyEntries(rows: seq<Record>, n: int)
    requires HasNumbers(rows)
    ensures n in HierarchyOf(rows) <==> exists i :: WritesKey(HierarchyWrites(rows), i, n)
    ensures forall i :: WritesKey(HierarchyWrites(rows), i, n) && (forall j :: i < j < |rows| ==> !WritesKey(HierarchyWrites(rows), j, n)) ==>
      HierarchyOf(rows)[n] == HierarchyEntry(rows[i]).value.1
  {
    ApplyWritesKeys(map[], HierarchyWrites(rows), n);
    forall i | WritesKey(HierarchyWrites(rows), i, n) && (forall j :: i < j < |rows| ==> !WritesKey(HierarchyWrites(rows), j, n))
      ensures HierarchyOf(rows)[n] == HierarchyEntry(rows[i]).value.1
    {
      ApplyWritesLast(map[], HierarchyWrites(rows), i);
    }
  }

  /** "a - b" names the subprocesses a through b. */
  lemma LinkageRange(a: nat, b: nat)
    ensures ParseLinkage(NatToString(a) + " - " + NatToString(b)) == Some(IntRange(a, b))
  {
    ParseIntToString(a);
    ParseIntToString(b);
    RangeTextParses(NatToString(a), NatToString(b), a, b);
  }

  /** "A - B" for digit strings naming `lo` and `hi` names `lo` through `hi`. */
  lemma RangeTextParses(A: string, B: string, lo: int, hi: int)
    requires A != [] && B != [] && AllDigits(A) && AllDigits(B)
    requires ParseInt(A) == Some(lo) && ParseInt(B) == Some(hi)
    ensures ParseLinkage(A + " - " + B) == Some(IntRange(lo, hi))
  {
    var text := A + " - " + B;
    assert text[|A| + 1] == '-';
    SplitOnFirst(A, " - ", B);
    SplitOnAbsent(B, " - ", 0);
    var parts := SplitOn(text, " - ");
    assert parts == [A, B];
    StripUnchanged(A);
    StripUnchanged(B);
    assert ParseInt(Strip(parts[0])) == Some(lo) && ParseInt(Strip(parts[1])) == Some(hi);
  }

  /** Numbers between commas name those subprocesses, in order. */
  lemma LinkageList(ns: seq<nat>)
    requires |ns| >= 2
    ensures ParseLinkage(JoinWith(NatStrings(ns), ',')) == Some(ns)
  {
    var words := NatStrings(ns);
    var text := JoinWith(words, ',');
    SplitJoinComma(words);
    JoinWithDigits(words);
    assert text == JoinWith(words[..|words| - 1], ',') + [','] + words[|words| - 1];
    assert text[|JoinWith(words[..|words| - 1], ',')|] == ',';
    assert '-' !in text;
    ParseNatStrings(ns);
  }

  /** Each decimal string parses back to its number. */
  lemma ParseNatStrings(ns: seq<nat>)
    ensures ParseInts(NatStrings(ns)) == Some(ns)
  {
    var words := NatStrings(ns);
    forall k | 0 <= k < |words| ensures ParseInt(Strip(words[k])) == Some(ns[k] as int) {
      StripUnchanged(words[k]);
      ParseIntToString(ns[k]);
    }
    var r := ParseInts(words);
    assert r.Some?;
    assert r.value == ns;
  }

  function NatStrings(ns: seq<nat>): (ws: seq<string>)
    ensures |ws| == |ns| && forall k :: 0 <= k < |ns| ==> ws[k] == NatToString(ns[k])
  {
    seq(|ns|, k requires 0 <= k < |ns| => NatToString(ns[k]))
  }

  /** Comma-joined digit strings hold only digits and commas. */
  lemma {:induction false} JoinWithDigits(words: seq<string>)
    requires |words| >= 1 && forall k :: 0 <= k < |words| ==> AllDigits(words[k])
    ensures forall i :: 0 <= i < |JoinWith(words, ',')| ==> JoinWith(words, ',')[i] == ',' || IsDigit(JoinWith(words, ',')[i])
  {
    if |words| > 1 {
      var init := words[..|words| - 1];
      JoinWithDigits(init);
      var front := JoinWith(init, ',');
      var last := words[|words| - 1];
      assert JoinWith(words, ',') == front + [','] + last;
      forall i | 0 <= i < |JoinWith(words, ',')| ensures JoinWith(words, ',')[i] == ',' || IsDigit(JoinWith(words, ',')[i]) {
        if i > |front| {
          assert JoinWith(words, ',')[i] == last[i - |front| - 1];
        }
      }
    }
  }

  /** Joining at the front: the first word, a separator, the rest joined. */
  lemma {:induction false} JoinWithFront(words: seq<string>, sep: char)
    requires |words| >= 2
    ensures JoinWith(words, sep) == words[0] + [sep] + JoinWith(words[1..], sep)
  {
    if |words| > 2 {
      JoinWithFront(words[..|words| - 1], sep);
      assert words[..|words| - 1][1..] == words[1..][..|words[1..]| - 1];
    } else {
      assert words[1..] == [words[1]];
    }
  }

  /** Splitting comma-joined digit strings at ',' gives them back. */
  lemma {:induction false} SplitJoinComma(words: seq<string>)
    requires |words| >= 1 && forall k :: 0 <= k < |words| ==> AllDigits(words[k])
    ensures SplitOn(JoinWith(words, ','), ",") == words
  {
    if |words| == 1 {
      SplitOnAbsent(words[0], ",", 0);
    } else {
      JoinWithFront(words, ',');
      SplitOnFirst(words[0], ",", JoinWith(words[1..], ','));
      SplitJoinComma(words[1..]);
      assert [words[0]] + words[1..] == words;
    }
  }

  /** A range written without spaces is skipped: "1-3" does not split at " - ". */
  lemma LinkageRangeNeedsSpaces(a: nat, b: nat)
    ensures ParseLinkage(NatToString(a) + "-" + NatToString(b)) == None
  {
    var text := NatToString(a) + "-" + NatToString(b);
    assert text[|NatToString(a)|] == '-';
    SplitOnAbsent(text, " - ", 0);
  }

  /** A single number names nothing: neither '-' nor ',' occurs. */
  lemma LinkageSingleNumber(a: nat)
    ensures ParseLinkage(NatToString(a)) == None
  {
  }

  /** A text "A - tail" whose tail holds no '-' and is not an integer is skipped. */
  lemma LinkageBadUpperBound(A: string, tail: string)
    requires A != [] && AllDigits(A) && '-' !in tail && ParseInt(Strip(tail)).None?
    ensures ParseLinkage(A + " - " + tail) == None
  {
    var text := A + " - " + tail;
    assert text[|A| + 1] == '-';
    SplitOnFirst(A, " - ", tail);
    SplitOnAbsent(tail, " - ", 1);
    assert SplitOn(text, " - ") == [A, tail];
  }

  /** Text that starts and ends with a digit but is not all digits is no integer. */
  lemma NotIntText(t: string)
    requires t != [] && IsDigit(t[0]) && IsDigit(t[|t| - 1]) && !AllDigits(t)
    ensures ParseInt(Strip(t)).None?
  {
    StripUnchanged(t);
    StripIdempotent(t);
  }

  /** "B, C" for digit strings B and C has no '-' and is not an integer. */
  lemma CommaPairNotInt(B: string, C: string)
    requires B != [] && C != [] && AllDigits(B) && AllDigits(C)
    ensures '-' !in B + ", " + C
    ensures ParseInt(Strip(B + ", " + C)).None?
  {
    var tail := B + ", " + C;
    forall i | 0 <= i < |tail| ensures tail[i] != '-' {
      if i < |B| {
        assert tail[i] == B[i];
      } else if i >= |B| + 2 {
        assert tail[i] == C[i - |B| - 2];
      }
    }
    assert tail[0] == B[0] && tail[|tail| - 1] == C[|C| - 1];
    assert tail[|B|] == ',';
    NotIntText(tail);
  }

  /** The range test comes first, so a comma list holding a range is
      skipped: in "a - b, c" the part after " - " is not an integer. */
  lemma LinkageMixedSkipped(a: nat, b: nat, c: nat)
    ensures ParseLinkage(NatToString(a) + " - " + NatToString(b) + ", " + NatToString(c)) == None
  {
    MixedTextSkipped(NatToString(a), NatToString(b), NatToString(c));
  }

  /** "A - B, C" for digit strings A, B and C is skipped. */
  lemma MixedTextSkipped(A: string, B: string, C: string)
    requires A != [] && B != [] && C != [] && AllDigits(A) && AllDigits(B) && AllDigits(C)
    ensures ParseLinkage(A + " - " + B + ", " + C) == None
  {
    var tail := B + ", " + C;
    CommaPairNotInt(B, C);
    LinkageBadUpperBound(A, tail);
    assert A + " - " + B + ", " + C == A + " - " + tail;
  }

  // ---------------------------------------------------------------------
  // preprocess_text

  /** `re.sub(r'[^\w\s]', ' ', s)`: every character that is neither a word
      character nor whitespace becomes a space. */
  function Scrub(s: string): (r: string)
    ensures |r| == |s|
    ensures forall i :: 0 <= i < |s| ==> r[i] == if IsWordChar(s[i]) || IsSpace(s[i]) then s[i] else ' '
  {
    seq(|s|, i requires 0 <= i < |s| => if IsWordChar(s[i]) || IsSpace(s[i]) then s[i] else ' ')
  }

  /** No two neighbouring spaces. */
  predicate SingleSpaced(s: string) {
    forall i :: 0 <= i < |s| - 1 ==> !(s[i] == ' ' && s[i + 1] == ' ')
  }

  /** `re.sub(r'\s+', ' ', s)`: every run of whitespace becomes one space. */
  function CollapseSpaces(s: string): (r: string)
    ensures |r| <= |s|
    ensures forall i :: 0 <= i < |r| ==> r[i] == ' ' || (!IsSpace(r[i]) && r[i] in s)
    ensures SingleSpaced(r)
    ensures s != [] && !IsSpace(s[0]) ==> r != [] && r[0] == s[0]
    ensures s != [] && IsSpace(s[0]) ==> r != [] && r[0] == ' '
  {
    if s == [] then []
    else if IsSpace(s[0]) then
      if |s| > 1 && IsSpace(s[1]) then CollapseSpaces(s[1..]) else " " + CollapseSpaces(s[1..])
    else
      [s[0]] + CollapseSpaces(s[1..])
  }

  /** Collapsing whitespace runs keeps every word, and so every
      non-whitespace character, in order. */
  lemma {:induction false} CollapseSpacesWords(s: string)
    ensures Words(CollapseSpaces(s)) == Words(s)
    ensures NonSpace(CollapseSpaces(s)) == NonSpace(s)
  {
    if s != [] {
      var x := s[1..];
      assert [s[0]] + x == s;
      CollapseSpacesWords(x);
      var rx := CollapseSpaces(x);
      if IsSpace(s[0]) {
        WordsSpaceCons(s[0], x);
        if |s| > 1 && IsSpace(s[1]) {
        } else {
          WordsSpaceCons(' ', rx);
        }
      } else {
        WordsWordCons(s[0], x);
        WordsWordCons(s[0], rx);
      }
    }
    WordsConcat(s);
    WordsConcat(CollapseSpaces(s));
  }

  /** Text whose only whitespace is single spaces between non-whitespace
      characters. */
  predicate Tidy(t: string) {
    && (forall i :: 0 <= i < |t| ==> t[i] == ' ' || !IsSpace(t[i]))
    && SingleSpaced(t)
    && (t == [] || (t[0] != ' ' && t[|t| - 1] != ' '))
  }

  /** After the first word of tidy text that is not all of it come one
      space and more tidy text. */
  lemma TidyRest(t: string)
    requires Tidy(t) && t != [] && WordLength(t) < |t|
    ensures WordLength(t) + 1 < |t| && t[WordLength(t)] == ' '
    ensures Tidy(t[WordLength(t) + 1..]) && t[WordLength(t) + 1..] != []
  {
    var n := WordLength(t);
    assert t[n] == ' ';
    assert n < |t| - 1;
    var u := t[n + 1..];
    forall i | 0 <= i < |u| - 1 ensures !(u[i] == ' ' && u[i + 1] == ' ') {
      assert u[i] == t[n + 1 + i] && u[i + 1] == t[n + 2 + i];
    }
  }

  lemma SpaceSplit(t: string, n: nat)
    requires n + 1 < |t| && t[n] == ' '
    ensures [' '] + t[n + 1..] == t[n..] && t[..n] + [' '] + t[n + 1..] == t
  {
  }

  /** Tidy text is its words joined by single spaces, so `split()` recovers
      exactly the runs between the spaces. */
  lemma {:induction false} TidyWords(t: string)
    requires Tidy(t) && t != []
    ensures Words(t) != [] && JoinWith(Words(t), ' ') == t
    decreases |t|
  {
    WordsFront(t);
    var n := WordLength(t);
    if n < |t| {
      TidyRest(t);
      var u := t[n + 1..];
      TidyWords(u);
      SpaceSplit(t, n);
      WordsSpaceCons(' ', u);
      var ws := Words(t);
      assert ws == [t[..n]] + Words(u);
      JoinWithFront(ws, ' ');
      assert ws[1..] == Words(u);
    } else {
      assert t[..n] == t && t[n..] == [];
      assert Words(t[n..]) == [];
    }
  }

  /** `preprocess_text`: "" for a missing value; otherwise the lower-cased
      text with punctuation turned into spaces, whitespace runs collapsed and
      the ends stripped. */
  function PreprocessText(v: Value): (r: string)
    ensures IsNa(v) ==> r == ""
    ensures |r| <= |PyStr(v)|
    ensures r == [] || (!IsSpace(r[0]) && !IsSpace(r[|r| - 1]))
  {
    if IsNa(v) then "" else Strip(CollapseSpaces(Scrub(Lower(PyStr(v)))))
  }

  /** A character of cleaned text: a space or a lower-case word character. */
  predicate CleanChar(c: char) {
    c == ' ' || (IsWordChar(c) && LowerChar(c) == c)
  }

  /** Text in the form `preprocess_text` produces. */
  predicate Clean(s: string) {
    && (forall i :: 0 <= i < |s| ==> CleanChar(s[i]))
    && SingleSpaced(s)
    && (s == [] || (s[0] != ' ' && s[|s| - 1] != ' '))
  }

  lemma LowerCharIdempotent(c: char)
    ensures LowerChar(LowerChar(c)) == LowerChar(c)
  {
  }

  /** After `lower()` and the punctuation pass, every non-space character is a
      lower-case word character. */
  lemma ScrubbedChar(t: string, c: char)
    requires c in Scrub(Lower(t)) && !IsSpace(c)
    ensures CleanChar(c)
  {
    var sc := Scrub(Lower(t));
    var j :| 0 <= j < |sc| && sc[j] == c;
    if c != ' ' {
      assert Lower(t)[j] == c && c == LowerChar(t[j]);
      LowerCharIdempotent(t[j]);
    }
  }

  /** Stripping keeps a string single-spaced. */
  lemma StripSingleSpaced(s: string)
    requires SingleSpaced(s)
    ensures SingleSpaced(Strip(s))
  {
    var r := Strip(s);
    StripSlice(s);
    var a := |s| - |LStrip(s)|;
    forall i | 0 <= i < |r| - 1 ensures !(r[i] == ' ' && r[i + 1] == ' ') {
      assert r[i] == s[a + i] && r[i + 1] == s[a + i + 1];
    }
  }

  /** Cleaned text is lower-case word characters, single-spaced, stripped. */
  lemma PreprocessTextClean(v: Value)
    ensures Clean(PreprocessText(v))
  {
    if !IsNa(v) {
      var sc := Scrub(Lower(PyStr(v)));
      var cs := CollapseSpaces(sc);
      var r := Strip(cs);
      forall i | 0 <= i < |r| ensures CleanChar(r[i]) {
        StripChars(cs, r[i]);
        if r[i] != ' ' {
          ScrubbedChar(PyStr(v), r[i]);
        }
      }
      StripSingleSpaced(cs);
    }
  }

  /** Single-spaced text without other whitespace is left as it is. */
  lemma {:induction false} CollapseSpacesUnchanged(s: string)
    requires forall i :: 0 <= i < |s| ==> s[i] == ' ' || !IsSpace(s[i])
    requires SingleSpaced(s)
    ensures CollapseSpaces(s) == s
  {
    if s != [] {
      CollapseSpacesUnchanged(s[1..]);
      if IsSpace(s[0]) && |s| > 1 {
        assert s[1] != ' ';
      }
      assert [s[0]] + s[1..] == s;
    }
  }

  /** Lower-case word characters and spaces are left alone by `lower()` and the punctuation pass. */
  lemma CleanCharsFixed(s: string)
    requires forall i :: 0 <= i < |s| ==> CleanChar(s[i])
    ensures Lower(s) == s && Scrub(s) == s
  {
    assert forall i :: 0 <= i < |s| ==> Lower(s)[i] == s[i];
    forall i | 0 <= i < |s| ensures Scrub(s)[i] == s[i] {
      WordCharIsNotSpace(s[i]);
    }
  }

  /** Text in cleaned form cleans to itself. */
  lemma CleanFixed(s: string)
    requires Clean(s)
    ensures PreprocessText(Str(s)) == s
  {
    CleanCharsFixed(s);
    forall i | 0 <= i < |s| ensures s[i] == ' ' || !IsSpace(s[i]) {
      WordCharIsNotSpace(s[i]);
    }
    CollapseSpacesUnchanged(s);
    StripUnchanged(s);
  }

  /** Collapsed and stripped text is tidy. */
  lemma CollapsedTidy(s: string)
    ensures Tidy(Strip(CollapseSpaces(s)))
  {
    var cs := CollapseSpaces(s);
    var t := Strip(cs);
    forall i | 0 <= i < |t| ensures t[i] == ' ' || !IsSpace(t[i]) {
      StripChars(cs, t[i]);
    }
    StripSingleSpaced(cs);
  }

  /** What cleaning keeps: for a present value, the words of the
      lower-cased text with punctuation turned into spaces, joined by single
      spaces ("Hello, World!" gives "hello world"). */
  lemma PreprocessTextWords(v: Value)
    requires !IsNa(v)
    ensures var ws := Words(Scrub(Lower(PyStr(v))));
      && (PreprocessText(v) == [] <==> ws == [])
      && (ws != [] ==> PreprocessText(v) == JoinWith(ws, ' '))
    ensures NonSpace(PreprocessText(v)) == NonSpace(Scrub(Lower(PyStr(v))))
  {
    var sc := Scrub(Lower(PyStr(v)));
    var cs := CollapseSpaces(sc);
    var t := Strip(cs);
    assert t == PreprocessText(v);
    CollapsedTidy(sc);
    CollapseSpacesWords(sc);
    WordsStrip(cs);
    WordsConcat(t);
    WordsConcat(cs);
    if t != [] {
      TidyWords(t);
    }
  }

  /** Cleaning is idempotent: cleaned text cleans to itself. */
  lemma PreprocessTextIdempotent(v: Value)
    ensures PreprocessText(Str(PreprocessText(v))) == PreprocessText(v)
  {
    PreprocessTextClean(v);
    CleanFixed(PreprocessText(v));
  }

  // ---------------------------------------------------------------------
  // extract_keywords

  /** `preprocess_text(row.get(key, ''))` */
  function FieldText(row: Record, key: string): string {
    PreprocessText(GetOr(row, key, Str("")))
  }

  function SetOf(ws: seq<string>): (s: set<string>)
    ensures forall w :: w in s <==> w in ws
  {
    set w | w in ws
  }

  /** The words of the columns `prefix + str(i)` for `lo <= i < hi`. */
  function NumberedFieldWords(row: Record, prefix: string, lo: int, hi: int): (r: set<string>)
    ensures "" !in r
    decreases hi - lo
  {
    if hi <= lo then {} else NumberedFieldWords(row, prefix, lo, hi - 1) + SetOf(Words(FieldText(row, prefix + IntToString(hi - 1))))
  }

  /** The keywords of a process row: the words of its name, of its three
      characteristic classes and of its two boundary conditions, and its
      cleaned process type as one keyword when not empty. */
  function KeywordSet(row: Record): (r: set<string>)
    ensures "" !in r
    ensures forall w :: w in Words(FieldText(row, "Prozessname")) ==> w in r
    ensures FieldText(row, KindColumn) != "" ==> FieldText(row, KindColumn) in r
  {
    SetOf(Words(FieldText(row, "Prozessname")))
    + NumberedFieldWords(row, "Merkmalsklasse ", 1, 4)
    + (if FieldText(row, KindColumn) != "" then {FieldText(row, KindColumn)} else {})
    + NumberedFieldWords(row, "Randbedingung ", 1, 3)
  }

  /** The `!= '-'` tests are never false: cleaned text has no '-'. */
  lemma DashGuardDead(v: Value)
    ensures PreprocessText(v) != "-"
  {
    PreprocessTextClean(v);
    assert !CleanChar('-');
  }

  /** The characters of a slice are characters of the whole. */
  lemma SliceChars(a: string, b: string, off: nat)
    requires off + |a| <= |b| && forall p :: 0 <= p < |a| ==> a[p] == b[off + p]
    ensures forall c :: c in a ==> c in b
  {
    forall c | c in a ensures c in b {
      var p :| 0 <= p < |a| && a[p] == c;
      assert b[off + p] == c;
    }
  }

  /** The characters of the words of `s` are characters of `s`. */
  lemma {:induction false} WordCharIn(s: string, k: nat, c: char)
    requires k < |Words(s)| && c in Words(s)[k]
    ensures c in s
    decreases |s|
  {
    var t := LStrip(s);
    LStripSuffix(s);
    var n := WordLength(t);
    var rest := t[n..];
    assert Words(s) == [t[..n]] + Words(rest);
    if k == 0 {
      SliceChars(t[..n], t, 0);
    } else {
      WordCharIn(rest, k - 1, c);
      SliceChars(rest, t, n);
    }
    SliceChars(t, s, |s| - |t|);
  }

  /** A word of cleaned text is non-empty lower-case word characters. */
  lemma CleanWords(t: string, w: string)
    requires Clean(t) && w in Words(t)
    ensures w != [] && forall i :: 0 <= i < |w| ==> IsWordChar(w[i]) && CleanChar(w[i])
  {
    var k :| 0 <= k < |Words(t)| && Words(t)[k] == w;
    assert NoSpace(Words(t)[k]);
    forall i | 0 <= i < |w| ensures IsWordChar(w[i]) && CleanChar(w[i]) {
      assert w[i] in Words(t)[k];
      WordCharIn(t, k, w[i]);
      var j :| 0 <= j < |t| && t[j] == w[i];
      assert CleanChar(t[j]);
      assert !IsSpace(w[i]);
    }
  }

  /** A keyword is one word of lower-case word characters, except the
      process type, which is kept whole and may hold single spaces. */
  lemma KeywordsClean(row: Record, w: string)
    requires w in KeywordSet(row)
    ensures w != [] && forall i :: 0 <= i < |w| ==> CleanChar(w[i])
    ensures w != FieldText(row, KindColumn) ==> forall i :: 0 <= i < |w| ==> IsWordChar(w[i])
  {
    if w == FieldText(row, KindColumn) && w != "" {
      PreprocessTextClean(GetOr(row, KindColumn, Str("")));
    } else {
      var key := WordSource(row, w);
      PreprocessTextClean(GetOr(row, key, Str("")));
      CleanWords(FieldText(row, key), w);
    }
  }

  /** The column a keyword other than the process type comes from. */
  lemma WordSource(row: Record, w: string) returns (key: string)
    requires w in KeywordSet(row)
    requires w == FieldText(row, KindColumn) ==> w == ""
    ensures w in Words(FieldText(row, key))
  {
    if w in Words(FieldText(row, "Prozessname")) {
      key := "Prozessname";
    } else if w in NumberedFieldWords(row, "Merkmalsklasse ", 1, 4) {
      key := NumberedSource(row, "Merkmalsklasse ", 1, 4, w);
    } else {
      key := NumberedSource(row, "Randbedingung ", 1, 3, w);
    }
  }

  lemma {:induction false} NumberedSource(row: Record, prefix: string, lo: int, hi: int, w: string) returns (key: string)
    requires w in NumberedFieldWords(row, prefix, lo, hi)
    ensures w in Words(FieldText(row, key))
    decreases hi - lo
  {
    if w in SetOf(Words(FieldText(row, prefix + IntToString(hi - 1)))) {
      key := prefix + IntToString(hi - 1);
    } else {
      key := NumberedSource(row, prefix, lo, hi - 1, w);
    }
  }

  /** One more column's words. */
  lemma NumberedStep(row: Record, prefix: string, i: int, found: seq<string>, text: string)
    requires text == FieldText(row, prefix + IntToString(i))
    requires 1 <= i
    ensures NumberedFieldWords(row, prefix, 1, i + 1) == NumberedFieldWords(row, prefix, 1, i) + SetOf(Words(text))
    ensures SetOf(found + Words(text)) == SetOf(found) + SetOf(Words(text))
    ensures text == "" ==> SetOf(Words(text)) == {}
  {
    SetOfAppend(found, Words(text));
  }

  lemma SetOfAppend(a: seq<string>, b: seq<string>)
    ensures SetOf(a + b) == SetOf(a) + SetOf(b)
  {
    assert forall w :: w in a + b <==> w in a || w in b;
  }

  /** The keyword list of the source, `list(set(keywords))`: the same
      keywords without repetition, in an order the model leaves open. */
  method ExtractKeywords(row: Record) returns (keywords: seq<string>)
    ensures NoDuplicates(keywords)
    ensures forall w :: w in keywords <==> w in KeywordSet(row)
  {
    var name := FieldText(row, "Prozessname");
    var found: seq<string> := if name != "" then Words(name) else [];
    assert SetOf(found) == SetOf(Words(name));
    var classes := ExtendWithFields(row, "Merkmalsklasse ", 4);
    SetOfAppend(found, classes);
    found := found + classes;
    var kind := FieldText(row, KindColumn);
    var kinds := if kind != "" then [kind] else [];
    assert SetOf(kinds) == if kind != "" then {kind} else {};
    SetOfAppend(found, kinds);
    found := found + kinds;
    var conditions := ExtendWithFields(row, "Randbedingung ", 3);
    SetOfAppend(found, conditions);
    found := found + conditions;
    assert SetOf(found) == KeywordSet(row);
    keywords := Distinct(found);
  }

  /** The loop over the numbered columns `prefix + str(i)`, `1 <= i < hi`,
      adding the words of each that is neither empty nor "-". */
  method ExtendWithFields(row: Record, prefix: string, hi: int) returns (found: seq<string>)
    ensures SetOf(found) == NumberedFieldWords(row, prefix, 1, hi)
  {
    found := [];
    if hi <= 1 {
      return;
    }
    for i := 1 to hi
      invariant SetOf(found) == NumberedFieldWords(row, prefix, 1, i)
    {
      var text := FieldText(row, prefix + IntToString(i));
      DashGuardDead(GetOr(row, prefix + IntToString(i), Str("")));
      NumberedStep(row, prefix, i, found, text);
      if text != "" && text != "-" {
        found := found + Words(text);
      }
    }
  }

  // ---------------------------------------------------------------------
  // get_adaptive_threshold

  /** `[s for s in xs if s > 0]` */
  function Positives(xs: seq<real>): (ps: seq<real>)
    ensures forall k :: 0 <= k < |ps| ==> ps[k] > 0.0
    ensures forall x :: x in ps <==> x in xs && x > 0.0
  {
    if xs == [] then []
    else
      var front := Positives(xs[..|xs| - 1]);
      assert forall x :: x in xs <==> x in xs[..|xs| - 1] || x == xs[|xs| - 1];
      if xs[|xs| - 1] > 0.0 then front + [xs[|xs| - 1]] else front
  }

  function Sum(xs: seq<real>): real {
    if xs == [] then 0.0 else Sum(xs[..|xs| - 1]) + xs[|xs| - 1]
  }

  /** `np.mean` */
  function Mean(xs: seq<real>): real
    requires xs != []
  {
    Sum(xs) / |xs| as real
  }

  function SquaredDeviations(xs: seq<real>, m: real): seq<real> {
    seq(|xs|, k requires 0 <= k < |xs| => (xs[k] - m) * (xs[k] - m))
  }

  /** The population variance, whose square root `np.std` returns. */
  function Variance(xs: seq<real>): real
    requires xs != []
  {
    Mean(SquaredDeviations(xs, Mean(xs)))
  }

  /** `max(xs)` */
  function Max(xs: seq<real>): (m: real)
    requires xs != []
    ensures m in xs && forall k :: 0 <= k < |xs| ==> xs[k] <= m
  {
    if |xs| == 1 then xs[0]
    else
      var m := Max(xs[..|xs| - 1]);
      assert xs[..|xs| - 1] + [xs[|xs| - 1]] == xs;
      if xs[|xs| - 1] > m then xs[|xs| - 1] else m
  }

  function MaxReal(a: real, b: real): real { if a >= b then a else b }
  function MinReal(a: real, b: real): real { if a <= b then a else b }

  /** `get_adaptive_threshold`. `std` is `np.std` of the positive scores,
      taken as a parameter since the square root is not computed here. */
  function AdaptiveThreshold(sims: seq<real>, std: real): (t: real)
    requires std >= 0.0
    requires Positives(sims) != [] ==> std * std == Variance(Positives(sims))
    ensures 0.1 <= t <= 0.3
    ensures Positives(sims) == [] ==> t == 0.1
    ensures Positives(sims) != [] && Max(Positives(sims)) <= 0.4 ==> t == 0.1
    ensures Positives(sims) != [] && Max(Positives(sims)) > 0.7 ==> t >= 0.2
    ensures Positives(sims) != [] && Max(Positives(sims)) > 0.4 ==> t >= 0.15
  {
    if sims == [] then 0.1
    else
      var scores := Positives(sims);
      if scores == [] then 0.1
      else
        ClampedThreshold(Max(scores), Mean(scores), std)
  }

  /** The branch on the best score and the cap at 0.3: whatever the mean and
      the deviation, the result lies between 0.1 and 0.3, and a stronger best
      score never lowers the floor. */
  function ClampedThreshold(best: real, mean: real, std: real): (t: real)
    ensures 0.1 <= t <= 0.3
    ensures best <= 0.4 ==> t == 0.1
    ensures 0.4 < best ==> t >= 0.15
    ensures 0.7 < best ==> t >= 0.2
  {
    var threshold :=
      if best > 0.7 then MaxReal(0.2, mean - 0.5 * std)
      else if best > 0.4 then MaxReal(0.15, mean - 0.3 * std)
      else 0.1;
    MinReal(threshold, 0.3)
  }

  /** Scores that are not positive do not move the threshold. */
  lemma ThresholdIgnoresNonPositive(sims: seq<real>, x: real, std: real)
    requires x <= 0.0 && std >= 0.0
    requires Positives(sims) != [] ==> std * std == Variance(Positives(sims))
    ensures Positives(sims + [x]) == Positives(sims)
    ensures AdaptiveThreshold(sims + [x], std) == AdaptiveThreshold(sims, std)
  {
    assert (sims + [x])[..|sims + [x]| - 1] == sims;
  }

  /** A score above 0.3 always passes, so such a process keeps its best match. */
  lemma ThresholdKeepsStrongMatch(sims: seq<real>, std: real, k: int)
    requires std >= 0.0
    requires Positives(sims) != [] ==> std * std == Variance(Positives(sims))
    requires 0 <= k < |sims| && sims[k] > 0.3
    ensures sims[k] >= AdaptiveThreshold(sims, std)
  {
  }

  // ---------------------------------------------------------------------
  // The merge of subprocess matches into their main process

  /** The writes `all_mappings[int(subprocess_num)] = subprocess_baukasten`,
      one step per subprocess, nothing where the subprocess has no row. */
  function SubprocessSteps(nums: seq<int>, matches: seq<Option<seq<int>>>): (ws: Writes)
    requires |nums| == |matches|
    ensures |ws| == |nums|
    ensures forall j :: 0 <= j < |nums| ==> ws[j] == if matches[j].Some? then Some((nums[j], matches[j].value)) else None
  {
    seq(|nums|, j requires 0 <= j < |nums| => if matches[j].Some? then Some((nums[j], matches[j].value)) else None)
  }

  // ---------------------------------------------------------------------
  // create_enhanced_filled_matrix

  type Grid = seq<seq<Value>>

  /** Every row has `w` cells. */
  predicate Frame(g: Grid, w: nat) {
    forall i :: 0 <= i < |g| ==> |g[i]| == w
  }

  /** `[int(x) if not pd.isna(x) else None for x in cells]` */
  function ColumnNumbers(cells: seq<Value>): (r: Result<seq<Option<int>>, PyError>)
    ensures r.Success? <==> forall k :: 0 <= k < |cells| ==> IsNa(cells[k]) || PyInt(cells[k]).Success?
    ensures r.Success? ==> |r.value| == |cells|
    ensures r.Success? ==> forall k :: 0 <= k < |cells| ==>
      r.value[k] == if IsNa(cells[k]) then None else Some(PyInt(cells[k]).value)
  {
    if cells == [] then Success([])
    else
      var x := cells[|cells| - 1];
      match ColumnNumbers(cells[..|cells| - 1])
      case Failure(e) => Failure(e)
      case Success(front) =>
        if IsNa(x) then Success(front + [None])
        else
          match PyInt(x)
          case Failure(e) => Failure(e)
          case Success(n) => Success(front + [Some(n)])
  }

  /** `if process_num and process_num in mappings` */
  predicate Active(number: Option<int>, mappings: map<int, seq<int>>) {
    number.Some? && number.value != 0 && number.value in mappings
  }

  /** The row appended when the grid is too short:
      `[row_idx + 1] + [None] * n` with the element in column `col + 1`. */
  function NewRow(k: nat, n: nat, col: nat, e: int): (row: seq<Value>)
    requires col < n
    ensures |row| == n + 1
  {
    ([Int(k + 1)] + seq(n, _ => Null))[col + 1 := Int(e)]
  }

  /** One step of the element loop: element `e`, number `k` of its column,
      goes to row `3 + k`, or to a new last row when the grid has no such row. */
  function Place(g: Grid, n: nat, col: nat, k: nat, e: int): (r: Grid)
    requires Frame(g, n + 1) && col < n
    ensures Frame(r, n + 1)
    ensures |r| == if 3 + k < |g| then |g| else |g| + 1
    ensures r[if 3 + k < |g| then 3 + k else |g|][col + 1] == Int(e)
    ensures forall i :: 0 <= i < |g| && i != 3 + k ==> r[i] == g[i]
    ensures forall i, j :: 0 <= i < |g| && 0 <= j <= n && j != col + 1 ==> r[i][j] == g[i][j]
    ensures 3 + k >= |g| ==> r[|g|][0] == Int(k + 1) && forall j :: 1 <= j <= n && j != col + 1 ==> r[|g|][j] == Null
  {
    if 3 + k < |g| then g[3 + k := g[3 + k][col + 1 := Int(e)]]
    else g + [NewRow(k, n, col, e)]
  }

  /** The element loop of one column. */
  function FillColumn(g: Grid, n: nat, col: nat, es: seq<int>): (r: Grid)
    requires Frame(g, n + 1) && col < n
    ensures Frame(r, n + 1)
    ensures |r| >= |g|
    ensures forall i :: 0 <= i < |g| && i < 3 ==> r[i] == g[i]
  {
    if es == [] then g
    else Place(FillColumn(g, n, col, es[..|es| - 1]), n, col, |es| - 1, es[|es| - 1])
  }

  /** The column loop over the first `upto` process numbers. */
  function FillColumns(g: Grid, numbers: seq<Option<int>>, mappings: map<int, seq<int>>, upto: nat): (r: Grid)
    requires Frame(g, |numbers| + 1) && upto <= |numbers|
    ensures Frame(r, |numbers| + 1)
    ensures |r| >= |g|
    ensures forall i :: 0 <= i < |g| && i < 3 ==> r[i] == g[i]
  {
    if upto == 0 then g
    else
      var g' := FillColumns(g, numbers, mappings, upto - 1);
      var c := upto - 1;
      if Active(numbers[c], mappings) then FillColumn(g', |numbers|, c, mappings[numbers[c].value]) else g'
  }

  /** A data frame read from a sheet: rows of one width, at least one column. */
  predicate IsSheet(g: Grid) {
    g != [] ==> |g[0]| >= 1 && Frame(g, |g[0]|)
  }

  /** The filled matrix, or the exception: row 1 must exist (IndexError) and
      its cells after the first must be missing or convertible by `int()`. */
  function FilledMatrix(g: Grid, mappings: map<int, seq<int>>): (r: Result<Grid, PyError>)
    requires IsSheet(g)
    ensures r.Failure? <==> |g| < 2 || ColumnNumbers(g[1][1..]).Failure?
    ensures |g| < 2 ==> r == Failure(IndexError)
    ensures r.Success? ==> Frame(r.value, |g[0]|) && |r.value| >= |g| && r.value[..2] == g[..2]
  {
    if |g| < 2 then Failure(IndexError)
    else
      match ColumnNumbers(g[1][1..])
      case Failure(e) => Failure(e)
      case Success(numbers) => Success(FillColumns(g, numbers, mappings, |numbers|))
  }

  /** On a grid with at least three rows, element `k` of a column lands in
      row `3 + k` of that column, the rows are extended as far as needed,
      and nothing outside those cells changes. */
  lemma {:induction false} FillColumnCells(g: Grid, n: nat, col: nat, es: seq<int>)
    requires Frame(g, n + 1) && col < n && |g| >= 3
    ensures |FillColumn(g, n, col, es)| == if |g| >= 3 + |es| then |g| else 3 + |es|
    ensures forall k :: 0 <= k < |es| ==> FillColumn(g, n, col, es)[3 + k][col + 1] == Int(es[k])
    ensures forall i, j :: 0 <= i < |g| && 0 <= j <= n && j != col + 1 ==> FillColumn(g, n, col, es)[i][j] == g[i][j]
    ensures forall i :: 0 <= i < |g| && !(3 <= i < 3 + |es|) ==> FillColumn(g, n, col, es)[i] == g[i]
    ensures forall i :: |g| <= i < |FillColumn(g, n, col, es)| ==> FillColumn(g, n, col, es)[i][0] == Int(i - 2)
    ensures forall i, j :: |g| <= i < |FillColumn(g, n, col, es)| && 1 <= j <= n && j != col + 1 ==>
      FillColumn(g, n, col, es)[i][j] == Null
  {
    if es != [] {
      var init := es[..|es| - 1];
      FillColumnCells(g, n, col, init);
      var prev := FillColumn(g, n, col, init);
      var k := |es| - 1;
      assert FillColumn(g, n, col, es) == Place(prev, n, col, k, es[k]);
      forall q | 0 <= q < k ensures FillColumn(g, n, col, es)[3 + q][col + 1] == Int(es[q]) {
        assert init[q] == es[q];
      }
    }
  }

  /** On a grid of only two rows the first new row goes to index 2, so every
      element of a column lands one row above `3 + k`. */
  lemma {:induction false} FillColumnShortGrid(g: Grid, n: nat, col: nat, es: seq<int>)
    requires Frame(g, n + 1) && col < n && |g| == 2
    ensures |FillColumn(g, n, col, es)| == 2 + |es|
    ensures forall k :: 0 <= k < |es| ==> FillColumn(g, n, col, es)[2 + k][col + 1] == Int(es[k])
  {
    if es != [] {
      var init := es[..|es| - 1];
      FillColumnShortGrid(g, n, col, init);
      var k := |es| - 1;
      forall q | 0 <= q < k ensures FillColumn(g, n, col, es)[2 + q][col + 1] == Int(es[q]) {
        assert init[q] == es[q];
      }
    }
  }

  /** What cell `j` of an appended row `i` holds after the first `upto`
      columns: the element of an active column that lands there, else None. */
  function AppendedCell(numbers: seq<Option<int>>, mappings: map<int, seq<int>>, upto: nat, i: int, j: int): Value
    requires 1 <= j <= |numbers| && upto <= |numbers|
  {
    var c := j - 1;
    if c < upto && Active(numbers[c], mappings) && 3 <= i < 3 + |mappings[numbers[c].value]| then
      Int(mappings[numbers[c].value][i - 3])
    else
      Null
  }

  /** After the column loop on a grid with at least three rows: each active
      column holds its mapped elements from row 3 down, and every other
      column keeps its original cells. */
  lemma {:induction false} FillColumnsCells(g: Grid, numbers: seq<Option<int>>, mappings: map<int, seq<int>>, upto: nat)
    requires Frame(g, |numbers| + 1) && upto <= |numbers| && |g| >= 3
    ensures forall c :: 0 <= c < upto && Active(numbers[c], mappings) ==>
      |FillColumns(g, numbers, mappings, upto)| >= 3 + |mappings[numbers[c].value]|
    ensures forall c, k :: 0 <= c < upto && Active(numbers[c], mappings) && 0 <= k < |mappings[numbers[c].value]| ==>
      FillColumns(g, numbers, mappings, upto)[3 + k][c + 1] == Int(mappings[numbers[c].value][k])
    ensures forall i, j :: 0 <= i < |g| && 1 <= j <= |numbers| && (upto < j || !Active(numbers[j - 1], mappings)) ==>
      FillColumns(g, numbers, mappings, upto)[i][j] == g[i][j]
    ensures forall c, i :: 0 <= c < upto && Active(numbers[c], mappings) && 3 + |mappings[numbers[c].value]| <= i < |g| ==>
      FillColumns(g, numbers, mappings, upto)[i][c + 1] == g[i][c + 1]
    ensures forall i :: |g| <= i < |FillColumns(g, numbers, mappings, upto)| ==>
      FillColumns(g, numbers, mappings, upto)[i][0] == Int(i - 2)
    ensures forall i, j :: |g| <= i < |FillColumns(g, numbers, mappings, upto)| && 1 <= j <= |numbers| ==>
      FillColumns(g, numbers, mappings, upto)[i][j] == AppendedCell(numbers, mappings, upto, i, j)
  {
    FillColumnsPlaced(g, numbers, mappings, upto);
    FillColumnsOthers(g, numbers, mappings, upto);
    FillColumnsBelow(g, numbers, mappings, upto);
    FillColumnsTail(g, numbers, mappings, upto);
  }

  /** Each active column among the first `upto` holds its elements from row 3 down. */
  lemma {:induction false} FillColumnsPlaced(g: Grid, numbers: seq<Option<int>>, mappings: map<int, seq<int>>, upto: nat)
    requires Frame(g, |numbers| + 1) && upto <= |numbers| && |g| >= 3
    ensures forall c :: 0 <= c < upto && Active(numbers[c], mappings) ==>
      |FillColumns(g, numbers, mappings, upto)| >= 3 + |mappings[numbers[c].value]|
    ensures forall c, k :: 0 <= c < upto && Active(numbers[c], mappings) && 0 <= k < |mappings[numbers[c].value]| ==>
      FillColumns(g, numbers, mappings, upto)[3 + k][c + 1] == Int(mappings[numbers[c].value][k])
  {
    if upto > 0 {
      var c := upto - 1;
      FillColumnsPlaced(g, numbers, mappings, c);
      var prev := FillColumns(g, numbers, mappings, c);
      if Active(numbers[c], mappings) {
        FillColumnCells(prev, |numbers|, c, mappings[numbers[c].value]);
      }
    }
  }

  /** Columns that are not active among the first `upto` keep their cells. */
  lemma {:induction false} FillColumnsOthers(g: Grid, numbers: seq<Option<int>>, mappings: map<int, seq<int>>, upto: nat)
    requires Frame(g, |numbers| + 1) && upto <= |numbers| && |g| >= 3
    ensures forall i, j :: 0 <= i < |g| && 1 <= j <= |numbers| && (upto < j || !Active(numbers[j - 1], mappings)) ==>
      FillColumns(g, numbers, mappings, upto)[i][j] == g[i][j]
  {
    if upto > 0 {
      var c := upto - 1;
      FillColumnsOthers(g, numbers, mappings, c);
      var prev := FillColumns(g, numbers, mappings, c);
      if Active(numbers[c], mappings) {
        var es := mappings[numbers[c].value];
        FillColumnCells(prev, |numbers|, c, es);
        var r := FillColumns(g, numbers, mappings, upto);
        assert r == FillColumn(prev, |numbers|, c, es);
        forall i, j | 0 <= i < |g| && 1 <= j <= |numbers| && (upto < j || !Active(numbers[j - 1], mappings))
          ensures r[i][j] == g[i][j]
        {
          assert r[i][j] == prev[i][j];
        }
      }
    }
  }

  /** On a grid with at least three rows an active column keeps its cells
      below its elements. */
  lemma {:induction false} FillColumnsBelow(g: Grid, numbers: seq<Option<int>>, mappings: map<int, seq<int>>, upto: nat)
    requires Frame(g, |numbers| + 1) && upto <= |numbers| && |g| >= 3
    ensures forall c, i :: 0 <= c < upto && Active(numbers[c], mappings) && 3 + |mappings[numbers[c].value]| <= i < |g| ==>
      FillColumns(g, numbers, mappings, upto)[i][c + 1] == g[i][c + 1]
  {
    if upto > 0 {
      var c := upto - 1;
      FillColumnsBelow(g, numbers, mappings, c);
      FillColumnsPlaced(g, numbers, mappings, c);
      FillColumnsOthers(g, numbers, mappings, c);
      var prev := FillColumns(g, numbers, mappings, c);
      if Active(numbers[c], mappings) {
        FillColumnCells(prev, |numbers|, c, mappings[numbers[c].value]);
      }
    }
  }

  /** On a grid with at least three rows every appended row starts with its
      number and holds None where no element landed. */
  lemma {:induction false} FillColumnsTail(g: Grid, numbers: seq<Option<int>>, mappings: map<int, seq<int>>, upto: nat)
    requires Frame(g, |numbers| + 1) && upto <= |numbers| && |g| >= 3
    ensures forall i :: |g| <= i < |FillColumns(g, numbers, mappings, upto)| ==>
      FillColumns(g, numbers, mappings, upto)[i][0] == Int(i - 2)
    ensures forall i, j :: |g| <= i < |FillColumns(g, numbers, mappings, upto)| && 1 <= j <= |numbers| ==>
      FillColumns(g, numbers, mappings, upto)[i][j] == AppendedCell(numbers, mappings, upto, i, j)
  {
    if upto > 0 {
      var c := upto - 1;
      FillColumnsTail(g, numbers, mappings, c);
      var prev := FillColumns(g, numbers, mappings, c);
      if Active(numbers[c], mappings) {
        FillColumnCells(prev, |numbers|, c, mappings[numbers[c].value]);
        AppendedStep(g, numbers, mappings, c, upto);
      } else {
        forall i, j | |g| <= i < |prev| && 1 <= j <= |numbers|
          ensures prev[i][j] == AppendedCell(numbers, mappings, upto, i, j)
        {
          assert AppendedCell(numbers, mappings, c, i, j) == AppendedCell(numbers, mappings, upto, i, j);
        }
      }
    }
  }

  /** The appended rows after an active column, from those before it. */
  lemma AppendedStep(g: Grid, numbers: seq<Option<int>>, mappings: map<int, seq<int>>, c: nat, upto: nat)
    requires Frame(g, |numbers| + 1) && upto == c + 1 && upto <= |numbers| && |g| >= 3 && Active(numbers[c], mappings)
    requires forall i, j :: |g| <= i < |FillColumns(g, numbers, mappings, c)| && 1 <= j <= |numbers| ==>
      FillColumns(g, numbers, mappings, c)[i][j] == AppendedCell(numbers, mappings, c, i, j)
    ensures forall i, j :: |g| <= i < |FillColumns(g, numbers, mappings, upto)| && 1 <= j <= |numbers| ==>
      FillColumns(g, numbers, mappings, upto)[i][j] == AppendedCell(numbers, mappings, upto, i, j)
  {
    FillColumnsPlaced(g, numbers, mappings, c);
    FillColumnsOthers(g, numbers, mappings, c);
    var prev := FillColumns(g, numbers, mappings, c);
    var es := mappings[numbers[c].value];
    FillColumnCells(prev, |numbers|, c, es);
    var r := FillColumns(g, numbers, mappings, upto);
    assert r == FillColumn(prev, |numbers|, c, es);
    forall i, j | |g| <= i < |r| && 1 <= j <= |numbers|
      ensures r[i][j] == AppendedCell(numbers, mappings, upto, i, j)
    {
      if j != c + 1 && i < |prev| {
        assert r[i][j] == prev[i][j];
        assert AppendedCell(numbers, mappings, c, i, j) == AppendedCell(numbers, mappings, upto, i, j);
      } else if j != c + 1 {
        assert r[i][j] == Null;
        if j - 1 < c && Active(numbers[j - 1], mappings) {
          assert |prev| >= 3 + |mappings[numbers[j - 1].value]|;
        }
      } else if 3 <= i < 3 + |es| {
        assert r[3 + (i - 3)][c + 1] == Int(es[i - 3]);
      } else {
        assert r[i] == prev[i];
        assert AppendedCell(numbers, mappings, c, i, j) == Null;
      }
    }
  }

  // ---------------------------------------------------------------------
  // The mapper object

  class Mapper {
    /** The process sheet's rows after loading. */
    var processes: seq<Record>
    /** The matrix sheet as read, header rows included. */
    var matrix: Grid
    /** Main process number to its subprocess numbers. */
    var subprocessHierarchy: map<int, seq<int>>

    constructor (processes: seq<Record>, matrix: Grid)
      requires HasNumbers(processes)
      ensures this.processes == processes && this.matrix == matrix
      ensures subprocessHierarchy == HierarchyOf(processes)
    {
      this.processes := processes;
      this.matrix := matrix;
      subprocessHierarchy := map[];
      new;
      BuildSubprocessHierarchy();
    }

    /** `_build_subprocess_hierarchy` */
    method BuildSubprocessHierarchy()
      requires HasNumbers(processes)
      modifies this
      ensures processes == old(processes) && matrix == old(matrix)
      ensures subprocessHierarchy == HierarchyOf(processes)
    {
      var rows := processes;
      subprocessHierarchy := map[];
      for i := 0 to |rows|
        invariant processes == rows == old(processes) && matrix == old(matrix)
        invariant subprocessHierarchy == ApplyWrites(map[], HierarchyWrites(rows)[..i])
      {
        var row := rows[i];
        var kind := GetOr(row, KindColumn, Str(""));
        var linkages := GetOr(row, LinkColumn, Str(""));
        if !IsNa(linkages) && kind == Str("Hauptprozess") {
          var subs := ParseLinkage(PyStr(linkages));
          var num := PyInt(row[NumberColumn]);
          if subs.Some? && num.Success? {
            subprocessHierarchy := subprocessHierarchy[num.value := subs.value];
          }
        }
        assert HierarchyWrites(rows)[..i + 1][..i] == HierarchyWrites(rows)[..i];
      }
      assert HierarchyWrites(rows)[..|rows|] == HierarchyWrites(rows);
    }

    /** The merge after a main process's own matches: every found
        subprocess's matches are stored under its number, and the main
        process gets the union of its own and all found subprocesses'
        matches. `subMatches[j]` is None where subprocess `j` has no row. */
    method CombineSubprocessMatches(mappings: map<int, seq<int>>, processNum: int, mainMatches: seq<int>,
                                    subMatches: seq<Option<seq<int>>>)
      returns (r: map<int, seq<int>>)
      requires processNum in subprocessHierarchy
      requires |subMatches| == |subprocessHierarchy[processNum]|
      ensures processNum in r && NoDuplicates(r[processNum])
      ensures forall x :: x in r[processNum] <==>
        x in mainMatches || exists j :: 0 <= j < |subMatches| && subMatches[j].Some? && x in subMatches[j].value
      ensures forall k :: k != processNum ==>
        (k in r <==> k in ApplyWrites(mappings, SubprocessSteps(subprocessHierarchy[processNum], subMatches)))
      ensures forall k :: k != processNum && k in r ==>
        r[k] == ApplyWrites(mappings, SubprocessSteps(subprocessHierarchy[processNum], subMatches))[k]
    {
      var subs := subprocessHierarchy[processNum];
      // The members of `combined_subprocess_baukasten`, possibly repeated.
      var combined := mainMatches;
      r := mappings;
      for j := 0 to |subs|
        invariant r == ApplyWrites(mappings, SubprocessSteps(subs, subMatches)[..j])
        invariant forall x :: x in combined <==>
          x in mainMatches || exists i :: 0 <= i < j && subMatches[i].Some? && x in subMatches[i].value
      {
        if subMatches[j].Some? {
          combined := combined + subMatches[j].value;
          r := r[subs[j] := subMatches[j].value];
        }
        assert SubprocessSteps(subs, subMatches)[..j + 1][..j] == SubprocessSteps(subs, subMatches)[..j];
      }
      assert SubprocessSteps(subs, subMatches)[..|subs|] == SubprocessSteps(subs, subMatches);
      var list := Distinct(combined);
      r := r[processNum := list];
    }

    /** `create_enhanced_filled_matrix`: writes each mapped process's
        elements down its column of a copy of the matrix. */
    method CreateEnhancedFilledMatrix(mappings: map<int, seq<int>>) returns (r: Result<Grid, PyError>)
      requires IsSheet(matrix)
      ensures r == FilledMatrix(matrix, mappings)
    {
      var filled := matrix;
      if |filled| < 2 {
        return Failure(IndexError);
      }
      var numbers := ColumnNumbers(filled[1][1..]);
      if numbers.Failure? {
        return Failure(numbers.error);
      }
      var nums := numbers.value;
      var n := |nums|;
      assert Frame(matrix, n + 1);
      for col := 0 to n
        invariant filled == FillColumns(matrix, nums, mappings, col)
      {
        var number := nums[col];
        if number.Some? && number.value != 0 && number.value in mappings {
          var elements := mappings[number.value];
          ghost var start := filled;
          for k := 0 to |elements|
            invariant Frame(filled, n + 1)
            invariant filled == FillColumn(start, n, col, elements[..k])
          {
            ghost var before := filled;
            var row := 3 + k;
            if row < |filled| {
              filled := filled[row := filled[row][col + 1 := Int(elements[k])]];
            } else {
              var newRow := [Int(k + 1)] + seq(n, _ => Null);
              newRow := newRow[col + 1 := Int(elements[k])];
              filled := filled + [newRow];
            }
            assert filled == Place(before, n, col, k, elements[k]);
            assert elements[..k + 1][..k] == elements[..k];
          }
          assert elements[..|elements|] == elements;
        }
      }
      r := Success(filled);
    }
  }
}
