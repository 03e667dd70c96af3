/** The Victorian course importer: turns the lines of a course CSV (club, course, suburb, tee,
    18 pars, 18 yardages, 18 stroke indexes, slope) into courses, each with its tees. Reading
    and writing files is outside the model; it starts from the file's content. */
module VicImport {
  import opened Wrappers
  import opened Text
  import opened Seqs
  import opened Courses

  // ---------------------------------------------------------------- slugify

  predicate IsDash(c: char) { c == '-' }

  predicate KeptBySlug(c: char) { IsWord(c) || IsSpace(c) || c == '-' }

  /** `.replace(/[^\w\s-]/g, '')`: drops every character other than word characters, white
      space and '-'. */
  function StripSymbols(s: string): (r: string)
    ensures Subsequence(r, s)
    ensures forall c :: c in r ==> c in s && KeptBySlug(c)
    ensures forall i :: 0 <= i < |s| && KeptBySlug(s[i]) ==> multiset(r)[s[i]] == multiset(s)[s[i]]
    ensures (forall i :: 0 <= i < |s| ==> KeptBySlug(s[i])) ==> r == s
  {
    FilterAll(s, KeptBySlug);
    Filter(s, KeptBySlug)
  }

  /** The index just after the run of `inRun` characters that starts at `i`. */
  function RunEnd(s: string, i: nat, inRun: char -> bool): (j: nat)
    requires i <= |s|
    ensures i <= j <= |s|
    ensures forall k :: i <= k < j ==> inRun(s[k])
    ensures j < |s| ==> !inRun(s[j])
    decreases |s| - i
  {
    if i < |s| && inRun(s[i]) then RunEnd(s, i + 1, inRun) else i
  }

  /** `s[i..]` with every maximal run of `inRun` characters replaced by a single '-'. */
  function SquashFrom(s: string, i: nat, inRun: char -> bool): (r: string)
    requires i <= |s|
    ensures forall c :: c in r ==> c == '-' || (c in s && !inRun(c))
    ensures i == |s| ==> r == []
    ensures i < |s| ==> r != [] && r[0] == (if inRun(s[i]) then '-' else s[i])
    decreases |s| - i
  {
    if i == |s| then []
    else if inRun(s[i]) then "-" + SquashFrom(s, RunEnd(s, i + 1, inRun), inRun)
    else [s[i]] + SquashFrom(s, i + 1, inRun)
  }

  /** `.replace(/R+/g, '-')` for a character class R: every maximal run of `inRun`
      characters becomes a single '-'. */
  function SquashRuns(s: string, inRun: char -> bool): (r: string)
    ensures forall c :: c in r ==> c == '-' || (c in s && !inRun(c))
  {
    SquashFrom(s, 0, inRun)
  }

  predicate NoDoubleDash(s: string) {
    forall i :: 0 <= i < |s| - 1 ==> !(s[i] == '-' && s[i + 1] == '-')
  }

  lemma ConsNoDoubleDash(c: char, s: string)
    requires NoDoubleDash(s)
    requires c != '-' || s == [] || s[0] != '-'
    ensures NoDoubleDash([c] + s)
  {
    var t := [c] + s;
    forall i | 0 <= i < |t| - 1 ensures !(t[i] == '-' && t[i + 1] == '-') {
      if i > 0 {
        assert t[i] == s[i - 1] && t[i + 1] == s[i];
      }
    }
  }

  /** When '-' is itself in the class, squashing leaves no two '-' side by side. */
  lemma {:induction false} SquashNoDoubleDash(s: string, i: nat, inRun: char -> bool)
    requires i <= |s| && inRun('-')
    ensures NoDoubleDash(SquashFrom(s, i, inRun))
    decreases |s| - i
  {
    if i < |s| {
      if inRun(s[i]) {
        var j := RunEnd(s, i + 1, inRun);
        SquashNoDoubleDash(s, j, inRun);
        ConsNoDoubleDash('-', SquashFrom(s, j, inRun));
      } else {
        SquashNoDoubleDash(s, i + 1, inRun);
        ConsNoDoubleDash(s[i], SquashFrom(s, i + 1, inRun));
      }
    }
  }

  /** Squashing leaves alone a string whose class characters are lone '-'s. */
  lemma {:induction false} SquashIdentity(s: string, i: nat, inRun: char -> bool)
    requires i <= |s|
    requires forall k :: i <= k < |s| && inRun(s[k]) ==> s[k] == '-' && (k + 1 < |s| ==> !inRun(s[k + 1]))
    ensures SquashFrom(s, i, inRun) == s[i..]
    decreases |s| - i
  {
    if i < |s| {
      SquashIdentity(s, i + 1, inRun);
      assert s[i..] == [s[i]] + s[i + 1..];
      if inRun(s[i]) {
        assert RunEnd(s, i + 1, inRun) == i + 1;
      }
    }
  }

  /** A stretch without class characters is copied unchanged. */
  lemma {:induction false} SquashKeeps(s: string, i: nat, j: nat, inRun: char -> bool)
    requires i <= j <= |s|
    requires forall k :: i <= k < j ==> !inRun(s[k])
    ensures SquashFrom(s, i, inRun) == s[i..j] + SquashFrom(s, j, inRun)
    decreases j - i
  {
    if i < j {
      SquashKeeps(s, i + 1, j, inRun);
      assert s[i..j] == [s[i]] + s[i + 1..j];
      ConcatAssoc([s[i]], s[i + 1..j], SquashFrom(s, j, inRun));
    }
  }

  /** A maximal run of class characters becomes exactly one '-'. */
  lemma SquashRun(s: string, i: nat, j: nat, inRun: char -> bool)
    requires i < j <= |s|
    requires forall k :: i <= k < j ==> inRun(s[k])
    requires j < |s| ==> !inRun(s[j])
    ensures SquashFrom(s, i, inRun) == "-" + SquashFrom(s, j, inRun)
  {
    var e := RunEnd(s, i + 1, inRun);
    assert e == j;
  }

  predicate IsSlugChar(c: char) { IsLower(c) || IsDigit(c) || c == '_' || c == '-' }

  /** What a slug looks like: lower-case letters, digits, '_' and '-', never two '-' in a row. */
  predicate IsSlug(s: string) {
    (forall i :: 0 <= i < |s| ==> IsSlugChar(s[i])) && NoDoubleDash(s)
  }

  /** `slugify`: lower-case, drop symbols, white-space runs to '-', '-' runs to one '-', trim.
      Every slug is made of lower-case letters, digits, '_' and lone '-'s, with no white space. */
  function Slugify(text: string): (slug: string)
    ensures IsSlug(slug)
    ensures forall i :: 0 <= i < |slug| ==> !IsSpace(slug[i])
  {
    var c := SquashRuns(StripSymbols(Lower(text)), IsSpace);
    SpacesSquashed(text);
    var d := SquashRuns(c, IsDash);
    assert forall x :: x in d ==> IsSlugChar(x) && !IsSpace(x);
    SquashNoDoubleDash(c, 0, IsDash);
    NoSpaceIsTrimmed(d);
    Trim(d)
  }

  /** Once white-space runs are squashed, only slug characters are left. */
  lemma SpacesSquashed(text: string)
    ensures forall x :: x in SquashRuns(StripSymbols(Lower(text)), IsSpace) ==> IsSlugChar(x) && !IsSpace(x)
  {
    StrippedLower(text);
  }

  /** After lower-casing and dropping symbols, only lower-case word characters, white space and
      '-' remain. */
  lemma StrippedLower(text: string)
    ensures forall c :: c in StripSymbols(Lower(text)) ==> KeptBySlug(c) && !IsUpper(c)
  {
    var a := Lower(text);
    assert forall c :: c in a ==> !IsUpper(c);
  }

  lemma SlugifyIdentity(s: string)
    requires IsSlug(s)
    ensures Slugify(s) == s
  {
    assert forall i :: 0 <= i < |s| ==> !IsUpper(s[i]) && KeptBySlug(s[i]) && !IsSpace(s[i]);
    LowerIdentity(s);
    assert StripSymbols(Lower(s)) == s;
    assert s[0..] == s;
    SquashIdentity(s, 0, IsSpace);
    assert SquashRuns(s, IsSpace) == s;
    SquashIdentity(s, 0, IsDash);
    assert SquashRuns(s, IsDash) == s;
    NoSpaceIsTrimmed(s);
  }

  lemma SlugifyIdempotent(text: string)
    ensures Slugify(Slugify(text)) == Slugify(text)
  {
    SlugifyIdentity(Slugify(text));
  }

  predicate IsWordString(s: string) {
    s != [] && forall k :: 0 <= k < |s| ==> IsWord(s[k])
  }

  /** Squashing the white space between two words leaves the words joined by one '-'. */
  lemma SquashWords(a: string, sp: string, b: string)
    requires IsWordString(a) && IsWordString(b) && sp != []
    requires forall k :: 0 <= k < |sp| ==> IsSpace(sp[k])
    ensures SquashRuns(a + sp + b, IsSpace) == a + "-" + b
  {
    SquashHeadWord(a, sp, b);
    SquashSpaceThenWord(a, sp, b);
    ConcatAssoc(a, "-", b);
  }

  lemma SquashHeadWord(a: string, sp: string, b: string)
    requires IsWordString(a)
    ensures SquashFrom(a + sp + b, 0, IsSpace) == a + SquashFrom(a + sp + b, |a|, IsSpace)
  {
    var t := a + sp + b;
    ThreeParts(a, sp, b);
    SquashKeeps(t, 0, |a|, IsSpace);
    assert t[0..|a|] == a;
  }

  lemma SquashSpaceThenWord(a: string, sp: string, b: string)
    requires IsWordString(b) && sp != []
    requires forall k :: 0 <= k < |sp| ==> IsSpace(sp[k])
    ensures SquashFrom(a + sp + b, |a|, IsSpace) == "-" + b
  {
    var t := a + sp + b;
    var m, n := |a|, |a| + |sp|;
    ThreeParts(a, sp, b);
    assert forall k :: m <= k < n ==> IsSpace(t[k]);
    assert forall k :: n <= k < |t| ==> !IsSpace(t[k]);
    SquashRunThenRest(t, m, n, IsSpace);
    assert t[n..] == b;
  }

  /** A run followed by a stretch without class characters becomes '-' and that stretch. */
  lemma SquashRunThenRest(t: string, m: nat, n: nat, inRun: char -> bool)
    requires m < n <= |t|
    requires forall k :: m <= k < n ==> inRun(t[k])
    requires forall k :: n <= k < |t| ==> !inRun(t[k])
    ensures SquashFrom(t, m, inRun) == "-" + t[n..]
  {
    SquashRun(t, m, n, inRun);
    SquashIdentity(t, n, inRun);
  }

  /** Where each character of `a + sp + b` comes from. */
  lemma ThreeParts(a: string, sp: string, b: string)
    ensures forall k :: 0 <= k < |a| ==> (a + sp + b)[k] == a[k]
    ensures forall k :: |a| <= k < |a| + |sp| ==> (a + sp + b)[k] == sp[k - |a|]
    ensures forall k :: |a| + |sp| <= k < |a| + |sp| + |b| ==> (a + sp + b)[k] == b[k - |a| - |sp|]
  {
  }

  /** Lower-casing keeps word characters word characters. */
  lemma LowerWords(a: string)
    requires IsWordString(a)
    ensures IsWordString(Lower(a))
  {
  }

  /** Two words joined by one '-' have no '-' run to squash and no white space to trim. */
  lemma DashJoinedWords(a: string, b: string)
    requires IsWordString(a) && IsWordString(b)
    ensures Trim(SquashRuns(a + "-" + b, IsDash)) == a + "-" + b
  {
    var c := a + "-" + b;
    ThreeParts(a, "-", b);
    assert forall k :: 0 <= k < |c| && c[k] == '-' ==> k == |a|;
    SquashIdentity(c, 0, IsDash);
    assert c[0..] == c;
    NoSpaceIsTrimmed(c);
  }

  /** A concatenation of strings made of kept characters is made of kept characters. */
  lemma KeptConcat(x: string, y: string)
    requires forall k :: 0 <= k < |x| ==> KeptBySlug(x[k])
    requires forall k :: 0 <= k < |y| ==> KeptBySlug(y[k])
    ensures forall k :: 0 <= k < |x + y| ==> KeptBySlug((x + y)[k])
  {
    forall k | 0 <= k < |x + y| ensures KeptBySlug((x + y)[k]) {
      if k < |x| {
        assert (x + y)[k] == x[k];
      } else {
        assert (x + y)[k] == y[k - |x|];
      }
    }
  }

  /** White space between two words survives lower-casing and symbol stripping unchanged. */
  lemma LowerStripWords(a: string, sp: string, b: string)
    requires IsWordString(a) && IsWordString(b)
    requires forall k :: 0 <= k < |sp| ==> IsSpace(sp[k])
    ensures StripSymbols(Lower(a + sp + b)) == Lower(a) + sp + Lower(b)
  {
    LowerAppend(a + sp, b);
    LowerAppend(a, sp);
    LowerIdentity(sp);
    var la, lb := Lower(a), Lower(b);
    LowerWords(a);
    LowerWords(b);
    KeptConcat(la, sp);
    KeptConcat(la + sp, lb);
  }

  /** Words separated by white space slugify to the lower-cased words joined by one '-'; so
      "Royal Melbourne" becomes "royal-melbourne". */
  lemma SlugifyWords(a: string, sp: string, b: string)
    requires IsWordString(a) && IsWordString(b) && sp != []
    requires forall k :: 0 <= k < |sp| ==> IsSpace(sp[k])
    ensures Slugify(a + sp + b) == Lower(a) + "-" + Lower(b)
  {
    LowerStripWords(a, sp, b);
    LowerWords(a);
    LowerWords(b);
    SquashWords(Lower(a), sp, Lower(b));
    DashJoinedWords(Lower(a), Lower(b));
  }

  // ---------------------------------------------------------------- parseCsvLine

  /** The splitter's state: the fields so far, the field being read, and whether the
      scan is inside double quotes. */
  datatype LineScan = LineScan(result: seq<string>, current: string, inQuotes: bool)

  const LineStart := LineScan([], "", false)

  /** One character of the scan: a '"' toggles quoting and is dropped, a ',' outside quotes
      ends the field (trimmed), anything else extends it. */
  function ScanChar(st: LineScan, c: char): (next: LineScan)
    ensures |next.result| == |st.result| + (if c == ',' && !st.inQuotes then 1 else 0)
    ensures next.inQuotes == (if c == '"' then !st.inQuotes else st.inQuotes)
  {
    if c == '"' then st.(inQuotes := !st.inQuotes)
    else if c == ',' && !st.inQuotes then LineScan(st.result + [Trim(st.current)], "", st.inQuotes)
    else st.(current := st.current + [c])
  }

  function ScanLine(s: string, st: LineScan): LineScan
    decreases |s|
  {
    if s == [] then st else ScanLine(s[1..], ScanChar(st, s[0]))
  }

  /** The fields of a line: those the scan ended plus the last one, trimmed. */
  function CsvFields(line: string): (fields: seq<string>)
    ensures |fields| >= 1
  {
    var st := ScanLine(line, LineStart);
    st.result + [Trim(st.current)]
  }

  /** `parseCsvLine`: one pass over the characters with a quote flag. */
  method ParseCsvLine(line: string) returns (result: seq<string>)
    ensures result == CsvFields(line)
  {
    result := [];
    var current := "";
    var inQuotes := false;
    assert line[0..] == line;
    for i := 0 to |line|
      invariant ScanLine(line[i..], LineScan(result, current, inQuotes)) == ScanLine(line, LineStart)
    {
      var c := line[i];
      assert line[i..][1..] == line[i + 1..];
      if c == '"' {
        inQuotes := !inQuotes;
      } else if c == ',' && !inQuotes {
        result := result + [Trim(current)];
        current := "";
      } else {
        current := current + [c];
      }
    }
    result := result + [Trim(current)];
  }

  /** The comma at index `j` lies outside quotes: an even number of '"' precede it. */
  predicate IsUnquotedComma(line: string, j: nat)
    requires j < |line|
  {
    line[j] == ',' && multiset(line[..j])['"'] % 2 == 0
  }

  /** The commas outside quotes at index `i` or later. */
  function UnquotedCommasFrom(line: string, i: nat): nat
    decreases |line| - i
  {
    if i >= |line| then 0
    else (if IsUnquotedComma(line, i) then 1 else 0) + UnquotedCommasFrom(line, i + 1)
  }

  lemma {:induction false} ScanCount(line: string, i: nat, st: LineScan)
    requires i <= |line|
    requires st.inQuotes == (multiset(line[..i])['"'] % 2 == 1)
    ensures |ScanLine(line[i..], st).result| == |st.result| + UnquotedCommasFrom(line, i)
    decreases |line| - i
  {
    if i < |line| {
      var st' := ScanChar(st, line[i]);
      ScanCountStep(line, i, st);
      ScanCount(line, i + 1, st');
    }
  }

  /** One character of the count: the scan moves on by one character, the quote flag keeps
      the parity of the quotes read, and a field is added exactly at an unquoted comma. */
  lemma ScanCountStep(line: string, i: nat, st: LineScan)
    requires i < |line|
    requires st.inQuotes == (multiset(line[..i])['"'] % 2 == 1)
    ensures ScanLine(line[i..], st) == ScanLine(line[i + 1..], ScanChar(st, line[i]))
    ensures ScanChar(st, line[i]).inQuotes == (multiset(line[..i + 1])['"'] % 2 == 1)
    ensures |ScanChar(st, line[i]).result| == |st.result| + (if IsUnquotedComma(line, i) then 1 else 0)
  {
    var c := line[i];
    assert line[i..][1..] == line[i + 1..];
    assert line[..i + 1] == line[..i] + [c];
    assert multiset(line[..i + 1])['"'] == multiset(line[..i])['"'] + (if c == '"' then 1 else 0);
  }

  /** A line has one field more than it has commas outside quotes. */
  lemma CsvFieldCount(line: string)
    ensures |CsvFields(line)| == 1 + UnquotedCommasFrom(line, 0)
  {
    assert line[..0] == [] && line[0..] == line;
    ScanCount(line, 0, LineStart);
  }

  /** A field as the splitter returns it: no '"' left in it, no white space at either end. */
  predicate CleanField(f: string) {
    '"' !in f && IsTrimmed(f)
  }

  predicate CleanScan(st: LineScan) {
    '"' !in st.current && forall k :: 0 <= k < |st.result| ==> CleanField(st.result[k])
  }

  lemma ScanCharClean(st: LineScan, c: char)
    requires CleanScan(st)
    ensures CleanScan(ScanChar(st, c))
  {
    if c != '"' && c == ',' && !st.inQuotes {
      TrimKeeps(st.current, '"');
      var r := st.result + [Trim(st.current)];
      assert forall k :: 0 <= k < |r| ==> r[k] == if k < |st.result| then st.result[k] else Trim(st.current);
    }
  }

  lemma {:induction false} ScanClean(s: string, st: LineScan)
    requires CleanScan(st)
    ensures CleanScan(ScanLine(s, st))
    decreases |s|
  {
    if s != [] {
      ScanCharClean(st, s[0]);
      ScanClean(s[1..], ScanChar(st, s[0]));
    }
  }

  /** No field holds a '"', and every field is trimmed. */
  lemma CsvFieldsClean(line: string)
    ensures forall k :: 0 <= k < |CsvFields(line)| ==> CleanField(CsvFields(line)[k])
  {
    ScanClean(line, LineStart);
    TrimKeeps(ScanLine(line, LineStart).current, '"');
  }

  /** `s.split(sep)`: the pieces between the separators, one more than there are separators. */
  function SplitOn(s: string, sep: char): (parts: seq<string>)
    ensures |parts| >= 1
    ensures forall k :: 0 <= k < |parts| ==> sep !in parts[k]
    decreases |s|
  {
    if s == [] then [[]]
    else
      var rest := SplitOn(s[1..], sep);
      if s[0] == sep then [[]] + rest else [[s[0]] + rest[0]] + rest[1..]
  }

  /** The parts joined back with `sep`. */
  function JoinOn(parts: seq<string>, sep: char): string
    requires |parts| >= 1
    decreases |parts|
  {
    if |parts| == 1 then parts[0] else parts[0] + [sep] + JoinOn(parts[1..], sep)
  }

  /** Splitting loses nothing: joining the parts gives the string back. */
  lemma {:induction false} JoinSplitOn(s: string, sep: char)
    ensures JoinOn(SplitOn(s, sep), sep) == s
    decreases |s|
  {
    if s != [] {
      JoinSplitOn(s[1..], sep);
      var rest := SplitOn(s[1..], sep);
      if s[0] == sep {
        assert ([[]] + rest)[1..] == rest;
      } else {
        var parts := [[s[0]] + rest[0]] + rest[1..];
        if |rest| > 1 {
          assert parts[1..] == rest[1..];
          assert JoinOn(rest, sep) == rest[0] + [sep] + JoinOn(rest[1..], sep);
        }
      }
    }
  }

  function TrimAll(parts: seq<string>): (r: seq<string>)
    ensures |r| == |parts|
    ensures forall k :: 0 <= k < |parts| ==> r[k] == Trim(parts[k])
    decreases |parts|
  {
    if parts == [] then [] else [Trim(parts[0])] + TrimAll(parts[1..])
  }

  lemma TrimAllCons(x: string, rest: seq<string>)
    ensures TrimAll([x] + rest) == [Trim(x)] + TrimAll(rest)
  {
    assert ([x] + rest)[1..] == rest;
  }

  /** The parts with `prefix` glued to the front of the first. */
  function PrependTo(prefix: string, parts: seq<string>): seq<string>
    requires |parts| >= 1
  {
    [prefix + parts[0]] + parts[1..]
  }

  /** The claim of `ScanQuoteFree` for one start state. */
  predicate ScanIsSplit(s: string, st: LineScan) {
    ScanLine(s, st).result + [Trim(ScanLine(s, st).current)] ==
    st.result + TrimAll(PrependTo(st.current, SplitOn(s, ',')))
  }

  lemma PrependEmpty(parts: seq<string>)
    requires |parts| >= 1
    ensures PrependTo([], parts) == parts
  {
    assert [] + parts[0] == parts[0];
  }

  lemma PrependToEmptyHead(prefix: string, rest: seq<string>)
    requires |rest| >= 1
    ensures PrependTo(prefix, [[]] + rest) == [prefix] + rest
  {
    assert prefix + [] == prefix;
    assert ([[]] + rest)[1..] == rest;
  }

  lemma ScanIsSplitComma(s: string, st: LineScan)
    requires s != [] && s[0] == ',' && !st.inQuotes
    requires ScanIsSplit(s[1..], ScanChar(st, s[0]))
    ensures ScanIsSplit(s, st)
  {
    var rest := SplitOn(s[1..], ',');
    var e := ScanLine(s, st);
    assert e == ScanLine(s[1..], ScanChar(st, s[0]));
    var done, t := st.result, Trim(st.current);
    assert e.result + [Trim(e.current)] == (done + [t]) + TrimAll(PrependTo([], rest));
    PrependEmpty(rest);
    ConcatAssoc(done, [t], TrimAll(rest));
    TrimAllCons(st.current, rest);
    assert SplitOn(s, ',') == [[]] + rest;
    PrependToEmptyHead(st.current, rest);
  }

  lemma ScanIsSplitOther(s: string, st: LineScan)
    requires s != [] && s[0] != ',' && s[0] != '"'
    requires ScanIsSplit(s[1..], ScanChar(st, s[0]))
    ensures ScanIsSplit(s, st)
  {
    var st' := ScanChar(st, s[0]);
    var rest := SplitOn(s[1..], ',');
    assert st' == st.(current := st.current + [s[0]]);
    assert PrependTo(st.current, SplitOn(s, ',')) == PrependTo(st'.current, rest) by {
      assert SplitOn(s, ',') == [[s[0]] + rest[0]] + rest[1..];
      ConcatAssoc(st.current, [s[0]], rest[0]);
      assert ([[s[0]] + rest[0]] + rest[1..])[1..] == rest[1..];
    }
  }

  lemma {:induction false} ScanQuoteFree(s: string, st: LineScan)
    requires '"' !in s && !st.inQuotes
    ensures ScanIsSplit(s, st)
    decreases |s|
  {
    if s == [] {
      assert st.current + [] == st.current;
      assert PrependTo(st.current, SplitOn(s, ',')) == [st.current];
      TrimAllCons(st.current, []);
    } else {
      assert '"' !in s[1..] by {
        assert forall c :: c in s[1..] ==> c in s;
      }
      ScanQuoteFree(s[1..], ScanChar(st, s[0]));
      if s[0] == ',' {
        ScanIsSplitComma(s, st);
      } else {
        ScanIsSplitOther(s, st);
      }
    }
  }

  /** On a line without '"' the splitter is plain splitting on ',' with each part trimmed. */
  lemma QuoteFreeLineIsSplit(line: string)
    requires '"' !in line
    ensures CsvFields(line) == TrimAll(SplitOn(line, ','))
  {
    ScanQuoteFree(line, LineStart);
    var parts := SplitOn(line, ',');
    assert PrependTo([], parts) == parts by {
      assert [] + parts[0] == parts[0];
      assert [parts[0]] + parts[1..] == parts;
    }
  }

  // ---------------------------------------------------------------- parseCSV

  /** A line takes part when it is not blank (`line.trim()` is truthy). */
  predicate IsContentLine(line: string) {
    Trim(line) != []
  }

  /** The file's non-blank lines, in order; the first of them is the header. */
  function DataLines(content: string): (lines: seq<string>)
    ensures forall k :: 0 <= k < |lines| ==> IsContentLine(lines[k])
    ensures Subsequence(lines, SplitOn(content, '\n'))
    ensures forall k :: 0 <= k < |SplitOn(content, '\n')| && IsContentLine(SplitOn(content, '\n')[k]) ==>
      multiset(lines)[SplitOn(content, '\n')[k]] == multiset(SplitOn(content, '\n'))[SplitOn(content, '\n')[k]]
  {
    Filter(SplitOn(content, '\n'), IsContentLine)
  }

  /** Club, course, suburb and tee, then 18 pars, 18 yardages and 18 stroke indexes. */
  const MinColumns := 58

  /** One accepted row of the file. */
  datatype Row = Row(club: string, course: string, suburb: string, tee: TeePars)

  /** `.map(Number)`, with the conversion of one field given as `num`. */
  function Numbers(fields: seq<string>, num: string -> int): (ns: seq<int>)
    ensures |ns| == |fields|
    ensures forall k :: 0 <= k < |fields| ==> ns[k] == num(fields[k])
  {
    seq(|fields|, k requires 0 <= k < |fields| => num(fields[k]))
  }

  /** One line's fields as a row: none when the line has too few fields. A slope is present
      when a 59th field exists and is not empty. */
  function ParseRow(values: seq<string>, num: string -> int): (r: Option<Row>)
    ensures r.None? <==> |values| < MinColumns
    ensures r.Some? ==>
      && r.value.club == values[0] && r.value.course == values[1]
      && r.value.suburb == values[2] && r.value.tee.name == values[3]
      && r.value.tee.yardage.Some? && r.value.tee.strokeIndex.Some?
      && |r.value.tee.par| == |r.value.tee.yardage.value| == |r.value.tee.strokeIndex.value| == 18
      && (forall k :: 0 <= k < 18 ==>
            && r.value.tee.par[k] == num(values[4 + k])
            && r.value.tee.yardage.value[k] == num(values[22 + k])
            && r.value.tee.strokeIndex.value[k] == num(values[40 + k]))
      && r.value.tee.slope == (if |values| > 58 && values[58] != "" then Some(num(values[58])) else None)
  {
    if |values| < MinColumns then None
    else
      Some(Row(values[0], values[1], values[2], TeePars(
        values[3],
        Numbers(values[4..22], num),
        Some(Numbers(values[22..40], num)),
        Some(Numbers(values[40..58], num)),
        if |values| > 58 && values[58] != "" then Some(num(values[58])) else None)))
  }

  /** The rows of the given lines, in order, the short ones skipped. */
  function RowsOf(lines: seq<string>, num: string -> int): (rows: seq<Row>)
    ensures |rows| <= |lines|
    decreases |lines|
  {
    if lines == [] then []
    else
      var rows := RowsOf(lines[..|lines| - 1], num);
      match ParseRow(CsvFields(lines[|lines| - 1]), num)
      case None => rows
      case Some(r) => rows + [r]
  }

  /** The key rows are grouped by: club and course joined by '-'. */
  function RowKey(r: Row): string {
    r.club + "-" + r.course
  }

  function KeyOf(c: VicCourse): string {
    c.club + "-" + c.course
  }

  function KeyIs(key: string): Row -> bool {
    (r: Row) => RowKey(r) == key
  }

  function HasKey(key: string): VicCourse -> bool {
    (c: VicCourse) => KeyOf(c) == key
  }

  /** The course id: the slug of the club, with "-" and the course appended when they differ. */
  function CourseId(club: string, course: string): (id: string)
    ensures IsSlug(id)
  {
    Slugify(club + (if course != club then "-" + course else ""))
  }

  /** The course a row opens, before any tee is added. */
  function NewCourse(r: Row): (c: VicCourse)
    ensures KeyOf(c) == RowKey(r)
  {
    VicCourse(CourseId(r.club, r.course), r.club, r.course, r.suburb, "VIC", [])
  }

  /** One row into the grouping: the first course with the row's key gets the tee; when there
      is none, a new course is added at the end. */
  function AddRow(courses: seq<VicCourse>, r: Row): (added: seq<VicCourse>)
    ensures |added| == |courses| + (if FirstWhere(courses, HasKey(RowKey(r))).None? then 1 else 0)
    ensures forall j :: 0 <= j < |courses| ==> KeyOf(added[j]) == KeyOf(courses[j])
    ensures var i := TargetOf(courses, r);
      && i < |added| && KeyOf(added[i]) == RowKey(r)
      && added[i].tees == (if i < |courses| then courses[i].tees else []) + [r.tee]
  {
    match FirstWhere(courses, HasKey(RowKey(r)))
    case None => courses + [NewCourse(r).(tees := [r.tee])]
    case Some(i) => courses[i := courses[i].(tees := courses[i].tees + [r.tee])]
  }

  /** Where a row's tee goes: the first course with its key, or a new one at the end. */
  function TargetOf(courses: seq<VicCourse>, r: Row): nat {
    match FirstWhere(courses, HasKey(RowKey(r)))
    case None => |courses|
    case Some(i) => i
  }

  function GroupRows(rows: seq<Row>): (courses: seq<VicCourse>)
    ensures |courses| <= |rows|
    decreases |rows|
  {
    if rows == [] then [] else AddRow(GroupRows(rows[..|rows| - 1]), rows[|rows| - 1])
  }

  lemma RowsOfStep(lines: seq<string>, i: nat, num: string -> int)
    requires 1 <= i < |lines|
    ensures RowsOf(lines[1..i + 1], num) ==
      match ParseRow(CsvFields(lines[i]), num)
      case None => RowsOf(lines[1..i], num)
      case Some(r) => RowsOf(lines[1..i], num) + [r]
  {
    assert lines[1..i + 1][..i - 1] == lines[1..i];
    assert lines[1..i + 1][i - 1] == lines[i];
  }

  /** One line of the loop: grouping the rows up to line `i` inclusive adds that line's row, if
      it has one, to the grouping of the rows before it. */
  lemma GroupLinesStep(lines: seq<string>, i: nat, num: string -> int, row: Option<Row>)
    requires 1 <= i < |lines| && row == ParseRow(CsvFields(lines[i]), num)
    ensures GroupRows(RowsOf(lines[1..i + 1], num)) ==
      if row.Some? then AddRow(GroupRows(RowsOf(lines[1..i], num)), row.value)
      else GroupRows(RowsOf(lines[1..i], num))
  {
    RowsOfStep(lines, i, num);
    if row.Some? {
      GroupRowsAppend(RowsOf(lines[1..i], num), row.value);
    }
  }

  lemma GroupRowsAppend(rows: seq<Row>, r: Row)
    ensures GroupRows(rows + [r]) == AddRow(GroupRows(rows), r)
  {
    assert (rows + [r])[..|rows|] == rows;
  }

  /** A new course, added empty and then given the row's tee, is the course `AddRow` appends. */
  lemma AddRowNew(courses: seq<VicCourse>, r: Row)
    requires FirstWhere(courses, HasKey(RowKey(r))).None?
    ensures AddRow(courses, r) ==
      var added := courses + [NewCourse(r)];
      added[|courses| := added[|courses|].(tees := added[|courses|].tees + [r.tee])]
  {
    var c := NewCourse(r);
    assert (courses + [c])[|courses|] == c;
    assert c.tees + [r.tee] == [r.tee];
    UpdateAppended(courses, c, c.(tees := [r.tee]));
  }

  /** What the importer returns for a file: the courses of the rows after the header, in the
      order their keys first appear. */
  function ImportCourses(content: string, num: string -> int): seq<VicCourse> {
    CoursesOfLines(DataLines(content), num)
  }

  /** The body of `parseCSV`'s loop up to the key: the short-line check, the destructuring,
      the number conversions and the (never failing) check for 18 pars. */
  method ReadRow(values: seq<string>, num: string -> int) returns (row: Option<Row>)
    ensures row == ParseRow(values, num)
  {
    if |values| < MinColumns {
      return None;
    }
    var club, course, suburb, tee, rest := values[0], values[1], values[2], values[3], values[4..];
    assert rest[..18] == values[4..22] && rest[18..36] == values[22..40];
    assert rest[36..54] == values[40..58];
    var par := Numbers(rest[..18], num);
    var yardage := Numbers(rest[18..36], num);
    var strokeIndex := Numbers(rest[36..54], num);
    var slope := if |rest| > 54 && rest[54] != "" then Some(num(rest[54])) else None;
    if |par| != 18 {
      return None;
    }
    row := Some(Row(club, course, suburb, TeePars(tee, par,
      if |yardage| == 18 then Some(yardage) else None,
      if |strokeIndex| == 18 then Some(strokeIndex) else None,
      slope)));
  }

  /** The rest of the loop body: look the key up, add the course when it is new (its id the
      slug of club and course), and push the tee onto it. */
  method AddRowTo(courses: seq<VicCourse>, row: Row) returns (updated: seq<VicCourse>)
    ensures updated == AddRow(courses, row)
  {
    var key := row.club + "-" + row.course;
    var id := Slugify(row.club + (if row.course != row.club then "-" + row.course else ""));
    updated := courses;
    var found := FirstWhere(updated, HasKey(key));
    if found.None? {
      AddRowNew(courses, row);
      updated := updated + [VicCourse(id, row.club, row.course, row.suburb, "VIC", [])];
      found := Some(|updated| - 1);
    }
    var existing := updated[found.value];
    updated := updated[found.value := existing.(tees := existing.tees + [row.tee])];
  }

  /** The courses of the data lines after the header. */
  function CoursesOfLines(lines: seq<string>, num: string -> int): seq<VicCourse> {
    if |lines| <= 1 then [] else GroupRows(RowsOf(lines[1..], num))
  }

  /** `parseCSV` on the file's content: the non-blank lines, then one pass over those after
      the header, filling an insertion-ordered map from key to course. */
  method ParseCsv(content: string, num: string -> int) returns (courses: seq<VicCourse>)
    ensures courses == ImportCourses(content, num)
  {
    var lines := DataLines(content);
    courses := GroupLines(lines, num);
  }

  /** The loop of `parseCSV`. */
  method GroupLines(lines: seq<string>, num: string -> int) returns (courses: seq<VicCourse>)
    ensures courses == CoursesOfLines(lines, num)
  {
    courses := [];
    if |lines| <= 1 {
      return;
    }
    var i := 1;
    assert lines[1..1] == [];
    while i < |lines|
      invariant 1 <= i <= |lines|
      invariant courses == GroupRows(RowsOf(lines[1..i], num))
    {
      var values := ParseCsvLine(lines[i]);
      var row := ReadRow(values, num);
      GroupLinesStep(lines, i, num, row);
      if row.Some? {
        courses := AddRowTo(courses, row.value);
      }
      i := i + 1;
    }
    SliceToEnd(lines, 1, i);
  }

  // ---------------------------------------------------------------- what the grouping yields

  /** The distinct keys of the rows, in the order they first appear. */
  function Keys(rows: seq<Row>): seq<string>
    decreases |rows|
  {
    if rows == [] then []
    else
      var ks := Keys(rows[..|rows| - 1]);
      var k := RowKey(rows[|rows| - 1]);
      if k in ks then ks else ks + [k]
  }

  /** The tees of the rows with key `k`, in file order. */
  function TeesFor(rows: seq<Row>, k: string): (tees: seq<TeePars>)
    ensures |tees| <= |rows|
    decreases |rows|
  {
    if rows == [] then []
    else
      var last := rows[|rows| - 1];
      TeesFor(rows[..|rows| - 1], k) + (if RowKey(last) == k then [last.tee] else [])
  }

  /** The course for key `k`, independently of the order of insertion: opened by the first
      row with the key, holding the tees of all rows with the key. */
  function CourseFor(rows: seq<Row>, k: string): Option<VicCourse> {
    match FirstWhere(rows, KeyIs(k))
    case None => None
    case Some(i) => Some(NewCourse(rows[i]).(tees := TeesFor(rows, k)))
  }

  lemma TeesForAppend(rows: seq<Row>, r: Row, k: string)
    ensures TeesFor(rows + [r], k) == TeesFor(rows, k) + (if RowKey(r) == k then [r.tee] else [])
  {
    assert (rows + [r])[..|rows|] == rows;
  }

  lemma {:induction false} TeesForAbsent(rows: seq<Row>, k: string)
    requires FirstWhere(rows, KeyIs(k)).None?
    ensures TeesFor(rows, k) == []
    decreases |rows|
  {
    if rows != [] {
      var init := rows[..|rows| - 1];
      SplitLast(rows);
      FirstWhereAppend(init, rows[|rows| - 1], KeyIs(k));
      TeesForAbsent(init, k);
    }
  }

  /** Adding a row to the end changes the course of its own key only: it gains the row's tee,
      or it is opened by the row. */
  lemma CourseForAppend(rows: seq<Row>, r: Row, k: string)
    ensures CourseFor(rows + [r], k) ==
      match CourseFor(rows, k)
      case Some(c) => Some(if RowKey(r) == k then c.(tees := c.tees + [r.tee]) else c)
      case None => if RowKey(r) == k then Some(NewCourse(r).(tees := [r.tee])) else None
  {
    var t := rows + [r];
    FirstWhereAppend(rows, r, KeyIs(k));
    TeesForAppend(rows, r, k);
    var f := FirstWhere(rows, KeyIs(k));
    if f.Some? {
      var i := f.value;
      assert FirstWhere(t, KeyIs(k)) == Some(i);
      assert t[i] == rows[i];
      var c := NewCourse(rows[i]).(tees := TeesFor(rows, k));
      assert CourseFor(rows, k) == Some(c);
      assert CourseFor(t, k) == Some(NewCourse(rows[i]).(tees := TeesFor(t, k)));
      if RowKey(r) == k {
        assert TeesFor(t, k) == c.tees + [r.tee];
        assert NewCourse(rows[i]).(tees := TeesFor(t, k)) == c.(tees := c.tees + [r.tee]);
      } else {
        assert TeesFor(t, k) == c.tees;
      }
    } else if RowKey(r) == k {
      TeesForAbsent(rows, k);
      assert FirstWhere(t, KeyIs(k)) == Some(|rows|);
      assert t[|rows|] == r;
      assert TeesFor(t, k) == [r.tee];
    } else {
      assert FirstWhere(t, KeyIs(k)).None?;
    }
  }

  /** The keys are distinct, and they are exactly the keys of the rows. */
  lemma {:induction false} KeysSpec(rows: seq<Row>)
    ensures forall a, b :: 0 <= a < b < |Keys(rows)| ==> Keys(rows)[a] != Keys(rows)[b]
    ensures forall k :: k in Keys(rows) <==> FirstWhere(rows, KeyIs(k)).Some?
    decreases |rows|
  {
    if rows != [] {
      var init, last := rows[..|rows| - 1], rows[|rows| - 1];
      KeysSpec(init);
      SplitLast(rows);
      forall k ensures k in Keys(rows) <==> FirstWhere(rows, KeyIs(k)).Some? {
        FirstWhereAppend(init, last, KeyIs(k));
      }
    }
  }

  /** The key of a course opened by a row is the row's key. */
  lemma CourseForKey(rows: seq<Row>, k: string)
    ensures CourseFor(rows, k).Some? ==> KeyOf(CourseFor(rows, k).value) == k
  {
  }

  /** `courses` is the grouping of `rows`: one course per key, in the order the keys first
      appear, each the course `CourseFor` describes. */
  predicate Describes(rows: seq<Row>, courses: seq<VicCourse>) {
    |courses| == |Keys(rows)|
    && forall j :: 0 <= j < |Keys(rows)| ==> CourseFor(rows, Keys(rows)[j]) == Some(courses[j])
  }

  lemma KeysAppend(rows: seq<Row>, r: Row)
    ensures Keys(rows + [r]) == if RowKey(r) in Keys(rows) then Keys(rows) else Keys(rows) + [RowKey(r)]
  {
    assert (rows + [r])[..|rows|] == rows;
  }

  /** The keys of a grouping's courses are the keys of its rows, in the same order. */
  lemma DescribedKeys(rows: seq<Row>, courses: seq<VicCourse>)
    requires Describes(rows, courses)
    ensures forall j :: 0 <= j < |courses| ==> KeyOf(courses[j]) == Keys(rows)[j]
  {
    forall j | 0 <= j < |courses| ensures KeyOf(courses[j]) == Keys(rows)[j] {
      CourseForKey(rows, Keys(rows)[j]);
    }
  }

  /** A row whose key is known adds its tee to that key's course. */
  lemma AddRowToKnown(rows: seq<Row>, courses: seq<VicCourse>, r: Row)
    requires Describes(rows, courses) && RowKey(r) in Keys(rows)
    ensures Describes(rows + [r], AddRow(courses, r))
  {
    var ks, key := Keys(rows), RowKey(r);
    var rows', courses' := rows + [r], AddRow(courses, r);
    KeysSpec(rows);
    KeysAppend(rows, r);
    DescribedKeys(rows, courses);
    var i :| 0 <= i < |ks| && ks[i] == key;
    assert forall j :: 0 <= j < i ==> KeyOf(courses[j]) != key;
    FirstWhereAt(courses, HasKey(key), i);
    assert courses' == courses[i := courses[i].(tees := courses[i].tees + [r.tee])];
    ExtendDescribed(rows, courses, r, i);
  }

  /** Appending the row's tee to the course of its key, the `i`-th, keeps the description. */
  lemma ExtendDescribed(rows: seq<Row>, courses: seq<VicCourse>, r: Row, i: nat)
    requires Describes(rows, courses) && i < |Keys(rows)| && Keys(rows)[i] == RowKey(r)
    requires Keys(rows + [r]) == Keys(rows)
    ensures Describes(rows + [r], courses[i := courses[i].(tees := courses[i].tees + [r.tee])])
  {
    var ks, key := Keys(rows), RowKey(r);
    var rows', courses' := rows + [r], courses[i := courses[i].(tees := courses[i].tees + [r.tee])];
    KeysSpec(rows);
    forall j | 0 <= j < |ks| ensures CourseFor(rows', ks[j]) == Some(courses'[j]) {
      CourseForAppend(rows, r, ks[j]);
      if j != i {
        assert ks[j] != key && courses'[j] == courses[j];
      }
    }
  }

  /** A row with a new key opens a course at the end. */
  lemma AddRowToNew(rows: seq<Row>, courses: seq<VicCourse>, r: Row)
    requires Describes(rows, courses) && RowKey(r) !in Keys(rows)
    ensures Describes(rows + [r], AddRow(courses, r))
  {
    var ks, key := Keys(rows), RowKey(r);
    var rows', courses' := rows + [r], AddRow(courses, r);
    KeysSpec(rows);
    KeysAppend(rows, r);
    DescribedKeys(rows, courses);
    assert FirstWhere(courses, HasKey(key)).None?;
    assert courses' == courses + [NewCourse(r).(tees := [r.tee])];
    var ks' := ks + [key];
    forall j | 0 <= j < |ks'| ensures CourseFor(rows', ks'[j]) == Some(courses'[j]) {
      CourseForAppend(rows, r, ks'[j]);
      if j < |ks| {
        assert ks'[j] == ks[j] && courses'[j] == courses[j];
      }
    }
  }

  /** The grouping is one course per key, in the order the keys first appear, and each is the
      course `CourseFor` describes. */
  lemma {:induction false} GroupRowsSpec(rows: seq<Row>)
    ensures Describes(rows, GroupRows(rows))
    decreases |rows|
  {
    if rows != [] {
      var init, last := rows[..|rows| - 1], rows[|rows| - 1];
      GroupRowsSpec(init);
      if RowKey(last) in Keys(init) {
        AddRowToKnown(init, GroupRows(init), last);
      } else {
        AddRowToNew(init, GroupRows(init), last);
      }
      SplitLast(rows);
    }
  }

  // ---------------------------------------------------------------- properties of the import

  /** A tee as the importer builds it: 18 pars, 18 yardages and 18 stroke indexes. */
  predicate WellFormedTee(t: TeePars) {
    && |t.par| == 18
    && t.yardage.Some? && |t.yardage.value| == 18
    && t.strokeIndex.Some? && |t.strokeIndex.value| == 18
  }

  /** The rows the importer groups: those of the lines after the header. */
  function ImportedRows(content: string, num: string -> int): seq<Row> {
    var lines := DataLines(content);
    if |lines| <= 1 then [] else RowsOf(lines[1..], num)
  }

  lemma ImportedAreGrouped(content: string, num: string -> int)
    ensures Describes(ImportedRows(content, num), ImportCourses(content, num))
  {
    GroupRowsSpec(ImportedRows(content, num));
  }

  lemma {:induction false} RowsWellFormed(lines: seq<string>, num: string -> int)
    ensures forall m :: 0 <= m < |RowsOf(lines, num)| ==> WellFormedTee(RowsOf(lines, num)[m].tee)
    decreases |lines|
  {
    if lines != [] {
      RowsWellFormed(lines[..|lines| - 1], num);
    }
  }

  lemma {:induction false} TeesForWellFormed(rows: seq<Row>, k: string)
    requires forall m :: 0 <= m < |rows| ==> WellFormedTee(rows[m].tee)
    ensures forall i :: 0 <= i < |TeesFor(rows, k)| ==> WellFormedTee(TeesFor(rows, k)[i])
    decreases |rows|
  {
    if rows != [] {
      TeesForWellFormed(rows[..|rows| - 1], k);
    }
  }

  /** A row's tee is among the tees of its key. */
  lemma {:induction false} TeesForHas(rows: seq<Row>, m: nat)
    requires m < |rows|
    ensures rows[m].tee in TeesFor(rows, RowKey(rows[m]))
    decreases |rows|
  {
    if m < |rows| - 1 {
      TeesForHas(rows[..|rows| - 1], m);
    }
  }

  /** Every imported course: state "VIC", the id is the slug of its club and course, it has at
      least one tee, and every tee has 18 pars, yardages and stroke indexes. */
  lemma ImportedCourseShape(content: string, num: string -> int)
    ensures forall j :: 0 <= j < |ImportCourses(content, num)| ==>
      var c := ImportCourses(content, num)[j];
      && c.state == "VIC" && c.id == CourseId(c.club, c.course) && IsSlug(c.id)
      && c.tees != []
      && forall i :: 0 <= i < |c.tees| ==> WellFormedTee(c.tees[i])
  {
    var rows, g := ImportedRows(content, num), ImportCourses(content, num);
    ImportedAreGrouped(content, num);
    var lines := DataLines(content);
    if |lines| > 1 {
      RowsWellFormed(lines[1..], num);
    }
    KeysSpec(rows);
    forall j | 0 <= j < |g|
      ensures g[j].state == "VIC" && g[j].id == CourseId(g[j].club, g[j].course) && IsSlug(g[j].id)
      ensures g[j].tees != [] && forall i :: 0 <= i < |g[j].tees| ==> WellFormedTee(g[j].tees[i])
    {
      var k := Keys(rows)[j];
      var m := FirstWhere(rows, KeyIs(k)).value;
      TeesForWellFormed(rows, k);
      TeesForHas(rows, m);
    }
  }

  /** No two imported courses share a key. */
  lemma ImportedKeysDistinct(content: string, num: string -> int)
    ensures forall a, b :: 0 <= a < b < |ImportCourses(content, num)| ==>
      KeyOf(ImportCourses(content, num)[a]) != KeyOf(ImportCourses(content, num)[b])
  {
    var rows := ImportedRows(content, num);
    ImportedAreGrouped(content, num);
    KeysSpec(rows);
    DescribedKeys(rows, ImportCourses(content, num));
  }

  /** Every accepted row lands, as a tee, in the course of its key. */
  lemma EveryRowImported(content: string, num: string -> int, m: nat)
    requires m < |ImportedRows(content, num)|
    ensures exists j ::
      && 0 <= j < |ImportCourses(content, num)|
      && KeyOf(ImportCourses(content, num)[j]) == RowKey(ImportedRows(content, num)[m])
      && ImportedRows(content, num)[m].tee in ImportCourses(content, num)[j].tees
  {
    var rows, g := ImportedRows(content, num), ImportCourses(content, num);
    var k := RowKey(rows[m]);
    ImportedAreGrouped(content, num);
    KeysSpec(rows);
    DescribedKeys(rows, g);
    assert FirstWhere(rows, KeyIs(k)).Some?;
    var j :| 0 <= j < |Keys(rows)| && Keys(rows)[j] == k;
    TeesForHas(rows, m);
    assert g[j].tees == TeesFor(rows, k);
  }

  /** Rows are grouped by the joined string, not by the pair: two rows whose keys coincide go
      to one course even when their clubs and courses differ (club "A-B" with course "C", and
      club "A" with course "B-C", both have the key "A-B-C"). */
  lemma EqualKeysMerge(r1: Row, r2: Row)
    requires RowKey(r1) == RowKey(r2)
    ensures GroupRows([r1, r2]) == [NewCourse(r1).(tees := [r1.tee, r2.tee])]
  {
    var g1 := [NewCourse(r1).(tees := [r1.tee])];
    GroupOneRow(r1);
    GroupRowsAppend([r1], r2);
    assert [r1] + [r2] == [r1, r2];
    MergeIntoOnly(NewCourse(r1).(tees := [r1.tee]), r2);
    assert [r1.tee] + [r2.tee] == [r1.tee, r2.tee];
  }

  lemma GroupOneRow(r: Row)
    ensures GroupRows([r]) == [NewCourse(r).(tees := [r.tee])]
  {
    GroupRowsAppend([], r);
    assert [] + [r] == [r];
  }

  /** A row whose key is the only course's key adds its tee to that course. */
  lemma MergeIntoOnly(c: VicCourse, r: Row)
    requires KeyOf(c) == RowKey(r)
    ensures AddRow([c], r) == [c.(tees := c.tees + [r.tee])]
  {
    FirstWhereAt([c], HasKey(RowKey(r)), 0);
  }
}
