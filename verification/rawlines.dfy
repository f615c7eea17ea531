/** Reading a FRED text file that has already been fetched, as `series(id)`
    does once the lines are in hand: header lines are recognised by their
    first characters until the 'DATE' line, and every later line is a date
    token and a value token, '.' marking a missing value. */
module RawLines {
  import opened Observations
  import opened Outcome
  import opened TimeSeries

  /** `s[0:|p|] == p` */
  predicate StartsWith(s: string, p: string) {
    |p| <= |s| && s[..|p|] == p
  }

  /** The characters `str.split()` splits on. */
  predicate IsSpace(c: char) {
    || c == ' ' || ('\t' <= c <= '\r') || ('\U{1c}' <= c <= '\U{1f}')
    || c == '\U{85}' || c == '\U{a0}' || c == '\U{1680}' || ('\U{2000}' <= c <= '\U{200a}')
    || c == '\U{2028}' || c == '\U{2029}' || c == '\U{202f}' || c == '\U{205f}' || c == '\U{3000}'
  }

  /** The longest prefix of `s` with no space in it. */
  function WordAtStart(s: string): (w: string)
    ensures |w| <= |s|
    ensures |s| > 0 && !IsSpace(s[0]) ==> |w| > 0
  {
    if |s| == 0 || IsSpace(s[0]) then [] else [s[0]] + WordAtStart(s[1..])
  }

  /** `WordAtStart` is a prefix free of spaces that stops at a space or at
      the end. */
  lemma {:induction false} WordAtStartIsMaximal(s: string)
    ensures var w := WordAtStart(s);
      && w == s[..|w|]
      && (forall i :: 0 <= i < |w| ==> !IsSpace(w[i]))
      && (|w| < |s| ==> IsSpace(s[|w|]))
  {
    if |s| > 0 && !IsSpace(s[0]) {
      WordAtStartIsMaximal(s[1..]);
      var w, rest := WordAtStart(s), WordAtStart(s[1..]);
      assert w == [s[0]] + rest;
      forall i | 0 <= i < |w| ensures !IsSpace(w[i]) {
        if i > 0 { assert w[i] == rest[i - 1]; }
      }
    }
  }

  /** `s.split()`: the maximal runs of non-space characters, in order. */
  function Words(s: string): (ws: seq<string>)
    decreases |s|
  {
    if |s| == 0 then []
    else if IsSpace(s[0]) then Words(s[1..])
    else
      var w := WordAtStart(s);
      [w] + Words(s[|w|..])
  }

  /** Every word is non-empty and free of spaces. */
  lemma {:induction false} WordsHaveNoSpace(s: string)
    decreases |s|
    ensures forall i :: 0 <= i < |Words(s)| ==>
      |Words(s)[i]| > 0 && forall j :: 0 <= j < |Words(s)[i]| ==> !IsSpace(Words(s)[i][j])
  {
    if |s| > 0 {
      if IsSpace(s[0]) {
        WordsHaveNoSpace(s[1..]);
      } else {
        var w := WordAtStart(s);
        WordAtStartIsMaximal(s);
        WordsHaveNoSpace(s[|w|..]);
        assert Words(s) == [w] + Words(s[|w|..]);
      }
    }
  }

  /** `" ".join(ws)` */
  function JoinWords(ws: seq<string>): string {
    if |ws| == 0 then "" else if |ws| == 1 then ws[0] else ws[0] + " " + JoinWords(ws[1..])
  }

  /** `" ".join(line.split()[1:])`: the line without its first word. */
  function Rest(line: string): string {
    var ws := Words(line);
    if |ws| == 0 then "" else JoinWords(ws[1..])
  }

  /** The `freq` prefixes and the periods per year each sets. */
  function PeriodsPerYear(freq: string): Option<PerYear> {
    if StartsWith(freq, "Daily") then Some(365)
    else if StartsWith(freq, "Weekly") then Some(52)
    else if StartsWith(freq, "Monthly") then Some(12)
    else if StartsWith(freq, "Quarterly") then Some(4)
    else if StartsWith(freq, "Annual") then Some(1)
    else None
  }

  /** Every FRED frequency label, whatever follows it, sets its own number of
      periods per year. */
  lemma FrequencyLabels(suffix: string)
    ensures PeriodsPerYear("Daily" + suffix) == Some(365)
    ensures PeriodsPerYear("Weekly" + suffix) == Some(52)
    ensures PeriodsPerYear("Monthly" + suffix) == Some(12)
    ensures PeriodsPerYear("Quarterly" + suffix) == Some(4)
    ensures PeriodsPerYear("Annual" + suffix) == Some(1)
  {
    var d, w, m, q, a := "Daily" + suffix, "Weekly" + suffix, "Monthly" + suffix, "Quarterly" + suffix, "Annual" + suffix;
    assert d[..5] == "Daily" && w[..6] == "Weekly" && m[..7] == "Monthly";
    assert q[..9] == "Quarterly" && a[..6] == "Annual";
    assert w[0] == 'W' && m[0] == 'M' && q[0] == 'Q' && a[0] == 'A';
    OtherInitial(w, "Daily");
    OtherInitial(m, "Daily");
    OtherInitial(m, "Weekly");
    OtherInitial(q, "Daily");
    OtherInitial(q, "Weekly");
    OtherInitial(q, "Monthly");
    OtherInitial(a, "Daily");
    OtherInitial(a, "Weekly");
    OtherInitial(a, "Monthly");
    OtherInitial(a, "Quarterly");
  }

  /** A string does not start with a word whose first letter it lacks. */
  lemma OtherInitial(s: string, p: string)
    requires |s| > 0 && |p| > 0 && s[0] != p[0]
    ensures !StartsWith(s, p)
  {
    if |p| <= |s| {
      assert s[..|p|][0] == s[0];
    }
  }

  /** An unrecognised frequency leaves `t` unset. */
  lemma UnknownFrequency(freq: string)
    requires !StartsWith(freq, "Daily") && !StartsWith(freq, "Weekly") && !StartsWith(freq, "Monthly")
    requires !StartsWith(freq, "Quarterly") && !StartsWith(freq, "Annual")
    ensures PeriodsPerYear(freq).None?
  {
  }

  datatype LineKind =
    | TitleLine | SourceLine | SeasonLine | FreqLine | UnitsLine
    | RangeLine | UpdatedLine | DataMarker | OtherLine

  /** The header tests, applied in the source's order. */
  function Classify(line: string): LineKind {
    if StartsWith(line, "Title") then TitleLine
    else if StartsWith(line, "Sou") then SourceLine
    else if StartsWith(line, "Sea") then SeasonLine
    else if StartsWith(line, "Fre") then FreqLine
    else if StartsWith(line, "Uni") then UnitsLine
    else if StartsWith(line, "Dat") then RangeLine
    else if StartsWith(line, "Las") then UpdatedLine
    else if StartsWith(line, "DAT") then DataMarker
    else OtherLine
  }

  /** The header attributes; None is an attribute never set. */
  datatype Header = Header(
    title: Option<string>, source: Option<string>, season: Option<string>,
    freq: Option<string>, t: Option<PerYear>, units: Option<string>,
    daterange: Option<string>, updated: Option<string>)

  const NoHeader := Header(None, None, None, None, None, None, None, None)

  /** The effect of one header line. */
  function Absorb(h: Header, line: string): Header {
    match Classify(line)
    case TitleLine => h.(title := Some(Rest(line)))
    case SourceLine => h.(source := Some(Rest(line)))
    case SeasonLine => h.(season := Some(Rest(line)))
    case FreqLine =>
      var f := Rest(line);
      h.(freq := Some(f), t := if PeriodsPerYear(f).Some? then PeriodsPerYear(f) else h.t)
    case UnitsLine => h.(units := Some(Rest(line)))
    case RangeLine => h.(daterange := Some(Rest(line)))
    case UpdatedLine => h.(updated := Some(Rest(line)))
    case DataMarker => h
    case OtherLine => h
  }

  /** The header after the first `k` lines. */
  function HeaderOf(lines: seq<string>, k: nat): Header
    requires k <= |lines|
  {
    if k == 0 then NoHeader else Absorb(HeaderOf(lines, k - 1), lines[k - 1])
  }

  /** With no Title line among the first `k`, the title is never set. */
  lemma {:induction false} NoTitleLine(lines: seq<string>, k: nat)
    requires k <= |lines|
    requires forall j :: 0 <= j < k ==> Classify(lines[j]) != TitleLine
    ensures HeaderOf(lines, k).title == None
  {
    if k > 0 {
      NoTitleLine(lines, k - 1);
    }
  }

  /** The title is the rest of the last Title line. */
  lemma {:induction false} LastTitleWins(lines: seq<string>, k: nat, j: nat)
    requires j < k <= |lines| && Classify(lines[j]) == TitleLine
    requires forall i :: j < i < k ==> Classify(lines[i]) != TitleLine
    ensures HeaderOf(lines, k).title == Some(Rest(lines[j]))
    decreases k
  {
    if k - 1 > j {
      LastTitleWins(lines, k - 1, j);
    }
  }

  /** Index of the first 'DATE' line, if any. */
  function FirstMarker(lines: seq<string>): (m: Option<nat>)
    ensures m.Some? ==> m.value < |lines| && Classify(lines[m.value]) == DataMarker
    ensures forall j :: 0 <= j < |lines| && (m.None? || j < m.value) ==> Classify(lines[j]) != DataMarker
  {
    if |lines| == 0 then None
    else if Classify(lines[0]) == DataMarker then Some(0)
    else
      var m := FirstMarker(lines[1..]);
      assert forall j :: 1 <= j < |lines| ==> lines[j] == lines[1..][j - 1];
      if m.Some? then Some(m.value + 1) else None
  }

  /** One observation line: `split()[0]` is the date, `split()[1]` the value,
      '.' is missing, anything else goes through `float`, given here as
      `number`. */
  function Row(line: string, number: string -> Option<Obs>): Result<(string, Obs)> {
    var ws := Words(line);
    if |ws| < 2 then Err(IndexError)
    else if ws[1] == "." then Ok((ws[0], Missing))
    else if number(ws[1]).None? then Err(ValueError)
    else Ok((ws[0], number(ws[1]).value))
  }

  /** The first `k` observation lines, failing at the first bad one. */
  function Rows(lines: seq<string>, k: nat, number: string -> Option<Obs>): (r: Result<(seq<string>, seq<Obs>)>)
    requires k <= |lines|
    ensures r.Ok? ==> |r.value.0| == k && |r.value.1| == k
    ensures r.Ok? ==> forall i :: 0 <= i < k ==> Row(lines[i], number) == Ok((r.value.0[i], r.value.1[i]))
  {
    if k == 0 then Ok(([], []))
    else
      var prefix := Rows(lines, k - 1, number);
      if prefix.Err? then prefix
      else
        var row := Row(lines[k - 1], number);
        if row.Err? then Err(row.error)
        else Ok((prefix.value.0 + [row.value.0], prefix.value.1 + [row.value.1]))
  }

  /** What `series(id)` holds once the lines are read; turning the date
      strings into datetimes is not part of this model. */
  datatype Download = Download(header: Header, idCode: string, dates: seq<string>, data: seq<Obs>)

  /** The reader: header up to the first 'DATE' line, observations after it;
      with no such line the observation list is never bound (NameError). */
  function Parsed(lines: seq<string>, id: string, number: string -> Option<Obs>): (r: Result<Download>)
    ensures FirstMarker(lines).None? ==> r == Err(NameError)
  {
    var m := FirstMarker(lines);
    if m.None? then Err(NameError) else ParsedAt(lines, m.value, id, number)
  }

  /** The read once the 'DATE' line is found at `k`: the header of the lines
      before it and one observation per line after it. */
  function ParsedAt(lines: seq<string>, k: nat, id: string, number: string -> Option<Obs>): Result<Download>
    requires k < |lines|
  {
    var body := lines[k + 1..];
    var rows := Rows(body, |body|, number);
    if rows.Err? then Err(rows.error)
    else Ok(Download(HeaderOf(lines, k), id, rows.value.0, rows.value.1))
  }

  /** The header loop: absorbs lines until the first 'DATE' line, returning
      its index, or the number of lines when there is none. */
  method ScanHeader(lines: seq<string>) returns (h: Header, k: nat)
    ensures k <= |lines| && h == HeaderOf(lines, k)
    ensures k == |lines| <==> FirstMarker(lines).None?
    ensures k < |lines| ==> FirstMarker(lines) == Some(k)
  {
    h, k := NoHeader, 0;
    while k < |lines| && Classify(lines[k]) != DataMarker
      invariant 0 <= k <= |lines|
      invariant h == HeaderOf(lines, k)
      invariant NoMarkerBefore(lines, k)
    {
      NoMarkerStep(lines, k);
      h := Absorb(h, lines[k]);
      k := k + 1;
    }
    if k < |lines| {
      MarkerAt(lines, k);
    }
  }

  /** No 'DATE' line among the first `k`. */
  predicate NoMarkerBefore(lines: seq<string>, k: nat)
    requires k <= |lines|
  {
    forall j :: 0 <= j < k ==> Classify(lines[j]) != DataMarker
  }

  /** One more line that is not a 'DATE' line. */
  lemma NoMarkerStep(lines: seq<string>, k: nat)
    requires k < |lines| && NoMarkerBefore(lines, k) && Classify(lines[k]) != DataMarker
    ensures NoMarkerBefore(lines, k + 1)
  {
  }

  /** A 'DATE' line with none before it is the first marker. */
  lemma MarkerAt(lines: seq<string>, k: nat)
    requires k < |lines| && Classify(lines[k]) == DataMarker
    requires NoMarkerBefore(lines, k)
    ensures FirstMarker(lines) == Some(k)
  {
    var m := FirstMarker(lines);
    assert m.Some? && !(m.value < k) && !(k < m.value);
  }

  /** The observation loop: one row per line, stopping at the first bad one. */
  method ReadRows(body: seq<string>, number: string -> Option<Obs>) returns (r: Result<(seq<string>, seq<Obs>)>)
    ensures r == Rows(body, |body|, number)
  {
    var dates, data := [], [];
    var i := 0;
    while i < |body|
      invariant 0 <= i <= |body|
      invariant Rows(body, i, number) == Ok((dates, data))
    {
      var row := Row(body[i], number);
      if row.Err? {
        RowsFailAfter(body, i + 1, |body|, number);
        return Err(row.error);
      }
      dates, data := dates + [row.value.0], data + [row.value.1];
      i := i + 1;
    }
    r := Ok((dates, data));
  }

  /** `series(id)` once the lines are in hand: the header scan, then the
      observation lines after 'DATE'. */
  method Read(lines: seq<string>, id: string, number: string -> Option<Obs>) returns (r: Result<Download>)
    ensures r == Parsed(lines, id, number)
  {
    var h, k := ScanHeader(lines);
    if k == |lines| {
      return Err(NameError);
    }
    var body := lines[k + 1..];
    var rows := ReadRows(body, number);
    if rows.Err? {
      return Err(rows.error);
    }
    r := Ok(Download(h, id, rows.value.0, rows.value.1));
  }

  /** Once a line fails, so does every longer prefix, with the same error. */
  lemma {:induction false} RowsFailAfter(lines: seq<string>, k: nat, n: nat, number: string -> Option<Obs>)
    requires k <= n <= |lines| && Rows(lines, k, number).Err?
    ensures Rows(lines, n, number) == Rows(lines, k, number)
    decreases n - k
  {
    if k < n {
      RowsFailAfter(lines, k + 1, n, number);
    }
  }

  /** `line` holds date `date` and the value token of `v`: '.' for missing,
      otherwise a token `number` reads as `v`. */
  predicate ReadLine(line: string, date: string, v: Obs, number: string -> Option<Obs>) {
    var ws := Words(line);
    && |ws| >= 2 && date == ws[0]
    && (ws[1] == "." ==> v == Missing)
    && (ws[1] != "." ==> number(ws[1]) == Some(v))
  }

  /** Line `first + i` holds date `dates[i]` and value `data[i]`. */
  predicate ReadFrom(lines: seq<string>, first: nat, dates: seq<string>, data: seq<Obs>, number: string -> Option<Obs>) {
    && |dates| == |data| && first + |data| <= |lines|
    && forall i :: 0 <= i < |data| ==> ReadLine(lines[first + i], dates[i], data[i], number)
  }

  /** Read successfully, there is one date and one value per line after the
      'DATE' line; a '.' value is missing, any other is `float` of it. */
  lemma ParsedObservations(lines: seq<string>, id: string, number: string -> Option<Obs>)
    requires Parsed(lines, id, number).Ok?
    ensures FirstMarker(lines).Some?
    ensures var d := Parsed(lines, id, number).value;
      var m := FirstMarker(lines).value;
      && |d.data| == |lines| - m - 1
      && d.header == HeaderOf(lines, m) && d.idCode == id
      && ReadFrom(lines, m + 1, d.dates, d.data, number)
  {
    var m := FirstMarker(lines).value;
    var body := lines[m + 1..];
    var rows := Rows(body, |body|, number).value;
    RowsRead(body, number);
    ReadFromSuffix(lines, m + 1, rows.0, rows.1, number);
  }

  /** Rows read successfully are read from the lines they came from. */
  lemma RowsRead(body: seq<string>, number: string -> Option<Obs>)
    requires Rows(body, |body|, number).Ok?
    ensures ReadFrom(body, 0, Rows(body, |body|, number).value.0, Rows(body, |body|, number).value.1, number)
  {
    var rows := Rows(body, |body|, number).value;
    forall i | 0 <= i < |body| ensures ReadLine(body[i], rows.0[i], rows.1[i], number) {
      RowFacts(body[i], number, rows.0[i], rows.1[i]);
    }
  }

  /** Reading the lines after `first` is reading from `first` on. */
  lemma ReadFromSuffix(lines: seq<string>, first: nat, dates: seq<string>, data: seq<Obs>, number: string -> Option<Obs>)
    requires first <= |lines| && ReadFrom(lines[first..], 0, dates, data, number)
    ensures ReadFrom(lines, first, dates, data, number)
  {
    var body := lines[first..];
    forall i | 0 <= i < |data| ensures ReadLine(lines[first + i], dates[i], data[i], number) {
      assert body[0 + i] == lines[first + i];
    }
  }

  /** What a line read as a date and a value says about its tokens. */
  lemma RowFacts(line: string, number: string -> Option<Obs>, date: string, v: Obs)
    requires Row(line, number) == Ok((date, v))
    ensures ReadLine(line, date, v, number)
  {
  }

  /** A line whose value token is not '.' and not a number stops the read
      with an error; the first bad line decides which. */
  lemma BadValueFails(lines: seq<string>, id: string, number: string -> Option<Obs>, i: nat)
    requires FirstMarker(lines).Some? && FirstMarker(lines).value + 1 + i < |lines|
    requires var ws := Words(lines[FirstMarker(lines).value + 1 + i]);
      |ws| >= 2 && ws[1] != "." && number(ws[1]).None?
    ensures Parsed(lines, id, number).Err?
    ensures Parsed(lines, id, number).error in {IndexError, ValueError}
  {
    var m := FirstMarker(lines).value;
    var body := lines[m + 1..];
    assert body[i] == lines[m + 1 + i];
    assert Row(body[i], number).Err?;
    FirstBadRow(body, |body|, number);
  }

  /** A failed read of rows reports the error of its first bad line, every
      line before which was read. */
  lemma {:induction false} FirstBadRow(lines: seq<string>, k: nat, number: string -> Option<Obs>)
    requires k <= |lines| && Rows(lines, k, number).Err?
    ensures exists i :: (0 <= i < k && Rows(lines, i, number).Ok? && Row(lines[i], number).Err?
                         && Rows(lines, k, number).error == Row(lines[i], number).error)
    ensures Rows(lines, k, number).error in {IndexError, ValueError}
  {
    if Rows(lines, k - 1, number).Err? {
      FirstBadRow(lines, k - 1, number);
    } else {
      assert Rows(lines, k - 1, number).Ok? && Row(lines[k - 1], number).Err?;
    }
  }
}
