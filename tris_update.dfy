/**
 * The TRIS ledger updater (actualizar_tris.py): the official results file is
 * normalised to the ledger's columns, and the drawings whose CONCURSO is above
 * the local high-water mark are appended to the local ledger, which is then
 * sorted by CONCURSO, most recent first.
 *
 * The download, the CSV files and `os.path.exists` are not modelled: the
 * official rows and the local ledger are sequences of records, and a missing
 * local file is `None`.
 */
module TrisUpdate {
  import opened Wrappers
  import opened Text
  import opened Seqs

  /** The product code stamped on every normalised row (NPRODUCTO). */
  const ProductCode := 60

  /** The number of digits of a winning combination. */
  const CombinationWidth := 5

  /**
   * A row of the official file after its columns are renamed: Sorteo, Fecha,
   * the winning combination and the multiplier flag, the last two as
   * `astype(str)` renders them.
   */
  datatype OfficialRow = OfficialRow(sorteo: int, fecha: string, combinacion: string, multiplicador: string)

  /** A ledger row: NPRODUCTO, CONCURSO, R1..R5, FECHA, Multiplicador. */
  datatype Drawing = Drawing(
    nproducto: int,
    concurso: int,
    r1: int, r2: int, r3: int, r4: int, r5: int,
    fecha: string,
    multiplicador: string)

  /** `astype(int)` met a character of the padded combination that is not a digit. */
  datatype NormalizeError = CombinationNotNumeric

  // ---------------------------------------------------------------------------
  // Normalisation of the official rows

  /** `str.upper()` on the letters this model knows: ASCII and Latin-1. */
  function UpperChar(c: char): char {
    if 'a' <= c <= 'z' then (c as int - 32) as char
    else if '\U{E0}' <= c <= '\U{FE}' && c != '\U{F7}' then (c as int - 32) as char
    else c
  }

  function Upper(s: string): string {
    seq(|s|, i requires 0 <= i < |s| => UpperChar(s[i]))
  }

  /** "SÍ", the accented spelling of the multiplier flag. */
  const AccentedYes: string := "S\U{CD}"

  /**
   * `astype(str).str.upper().replace({"SÍ": "SI"})`: the flag is upper-cased
   * and the whole value "SÍ" becomes "SI".
   */
  function NormalizeMultiplier(m: string): (r: string)
    ensures r == "SI" <==> Upper(m) == "SI" || Upper(m) == AccentedYes
    ensures r != "SI" ==> r == Upper(m)
  {
    var u := Upper(m);
    if u == AccentedYes then "SI" else u
  }

  /** The combination left-padded with '0' to five characters (`str.zfill(5)`). */
  function PaddedCombination(raw: OfficialRow): (p: string)
    ensures |p| >= CombinationWidth
  {
    ZFill(raw.combinacion, CombinationWidth)
  }

  /** One official row as normalizar_csv turns it into a ledger row. */
  function NormalizeRow(raw: OfficialRow): (r: Result<Drawing, NormalizeError>)
    ensures r.Success? <==> AllDigits(PaddedCombination(raw)[..CombinationWidth])
  {
    var q := PaddedCombination(raw)[..CombinationWidth];
    if !AllDigits(q) then Failure(CombinationNotNumeric)
    else
      assert IsDigit(q[0]) && IsDigit(q[1]) && IsDigit(q[2]) && IsDigit(q[3]) && IsDigit(q[4]);
      Success(Drawing(
        ProductCode,
        raw.sorteo,
        DigitValue(q[0]), DigitValue(q[1]), DigitValue(q[2]), DigitValue(q[3]), DigitValue(q[4]),
        raw.fecha,
        NormalizeMultiplier(raw.multiplicador)))
  }

  /** The whole official file normalised; one bad combination fails it all. */
  function NormalizeAll(raw: seq<OfficialRow>): Result<seq<Drawing>, NormalizeError> {
    if forall i :: 0 <= i < |raw| ==> NormalizeRow(raw[i]).Success? then
      Success(seq(|raw|, i requires 0 <= i < |raw| => NormalizeRow(raw[i]).value))
    else
      Failure(CombinationNotNumeric)
  }

  /** normalizar_csv: its column-wise assignments, taken as a loop over rows. */
  method NormalizeCsv(raw: seq<OfficialRow>) returns (r: Result<seq<Drawing>, NormalizeError>)
    ensures r == NormalizeAll(raw)
  {
    var rows: seq<Drawing> := [];
    var i := 0;
    while i < |raw|
      invariant 0 <= i <= |raw|
      invariant |rows| == i
      invariant forall k :: 0 <= k < i ==> NormalizeRow(raw[k]).Success? && rows[k] == NormalizeRow(raw[k]).value
    {
      var row := NormalizeRow(raw[i]);
      if row.Failure? {
        return Failure(CombinationNotNumeric);
      }
      rows := rows + [row.value];
      i := i + 1;
    }
    assert rows == seq(|raw|, k requires 0 <= k < |raw| => NormalizeRow(raw[k]).value);
    return Success(rows);
  }

  predicate HasDigitColumns(d: Drawing) {
    0 <= d.r1 <= 9 && 0 <= d.r2 <= 9 && 0 <= d.r3 <= 9 && 0 <= d.r4 <= 9 && 0 <= d.r5 <= 9
  }

  /** R1..R5 written back as a five-character string. */
  function CombinationOf(d: Drawing): (s: string)
    requires HasDigitColumns(d)
    ensures |s| == CombinationWidth && AllDigits(s)
  {
    [DigitChar(d.r1), DigitChar(d.r2), DigitChar(d.r3), DigitChar(d.r4), DigitChar(d.r5)]
  }

  lemma DigitCharOfValue(c: char)
    requires IsDigit(c)
    ensures DigitChar(DigitValue(c)) == c
  {
  }

  /**
   * A normalised row carries NPRODUCTO 60, the drawing's number and date, the
   * normalised flag, and in R1..R5 the digits at positions 0..4 of the padded
   * combination.
   */
  lemma NormalizeRowColumns(raw: OfficialRow)
    requires NormalizeRow(raw).Success?
    ensures var d := NormalizeRow(raw).value;
      && d.nproducto == ProductCode
      && d.concurso == raw.sorteo
      && d.fecha == raw.fecha
      && d.multiplicador == NormalizeMultiplier(raw.multiplicador)
      && HasDigitColumns(d)
      && CombinationOf(d) == PaddedCombination(raw)[..CombinationWidth]
  {
    var p := PaddedCombination(raw)[..CombinationWidth];
    forall k | 0 <= k < CombinationWidth ensures DigitChar(DigitValue(p[k])) == p[k] {
      DigitCharOfValue(p[k]);
    }
  }

  /**
   * Pad/split round trip: a combination of at most five digits is accepted,
   * and R1..R5 spell out exactly its zero-padded form, which ends with the
   * combination itself.
   */
  lemma PadSplitRoundTrip(raw: OfficialRow)
    requires IsNumeral(raw.combinacion) && |raw.combinacion| <= CombinationWidth
    ensures NormalizeRow(raw).Success?
    ensures var d := NormalizeRow(raw).value;
      && HasDigitColumns(d)
      && CombinationOf(d) == ZFill(raw.combinacion, CombinationWidth)
      && CombinationOf(d)[CombinationWidth - |raw.combinacion|..] == raw.combinacion
  {
    var p := PaddedCombination(raw);
    ZFillDigits(raw.combinacion, CombinationWidth);
    assert p[..CombinationWidth] == p;
    NormalizeRowColumns(raw);
  }

  /** The value of a five-digit string, digit by digit. */
  lemma ValueOfFive(s: string)
    requires |s| == 5 && AllDigits(s)
    ensures Value(s) == 10000 * DigitValue(s[0]) + 1000 * DigitValue(s[1]) + 100 * DigitValue(s[2])
                        + 10 * DigitValue(s[3]) + DigitValue(s[4])
  {
    var s4, s3, s2, s1 := s[..4], s[..3], s[..2], s[..1];
    assert s[..|s| - 1] == s4 && s4[..|s4| - 1] == s3 && s3[..|s3| - 1] == s2;
    assert s2[..|s2| - 1] == s1 && s1[..|s1| - 1] == [];
    assert Value(s1) == DigitValue(s[0]);
    assert Value(s2) == 10 * DigitValue(s[0]) + DigitValue(s[1]);
    assert Value(s3) == 100 * DigitValue(s[0]) + 10 * DigitValue(s[1]) + DigitValue(s[2]);
    assert Value(s4) == 1000 * DigitValue(s[0]) + 100 * DigitValue(s[1]) + 10 * DigitValue(s[2]) + DigitValue(s[3]);
  }

  /**
   * For a drawing number n in 0..99999 written as `str(n)`, the five columns
   * R1..R5 are its decimal digits: 10000*R1 + 1000*R2 + 100*R3 + 10*R4 + R5 == n.
   */
  lemma CombinationColumnsValue(raw: OfficialRow, n: nat)
    requires n <= 99999 && raw.combinacion == NatToString(n)
    ensures NormalizeRow(raw).Success?
    ensures var d := NormalizeRow(raw).value;
      10000 * d.r1 + 1000 * d.r2 + 100 * d.r3 + 10 * d.r4 + d.r5 == n
  {
    assert Pow10(5) == 100000 by {
      assert Pow10(1) == 10;
      assert Pow10(2) == 100;
      assert Pow10(3) == 1000;
      assert Pow10(4) == 10000;
    }
    NatToStringLength(n, 5);
    var p := PaddedCombination(raw);
    ZFillDigits(raw.combinacion, CombinationWidth);
    assert p[..CombinationWidth] == p;
    ValueOfFive(p);
  }

  lemma UpperIdempotent(s: string)
    ensures Upper(Upper(s)) == Upper(s)
  {
  }

  /** Normalising the multiplier flag a second time changes nothing. */
  lemma NormalizeMultiplierIdempotent(m: string)
    ensures NormalizeMultiplier(NormalizeMultiplier(m)) == NormalizeMultiplier(m)
  {
    UpperIdempotent(m);
    assert Upper("SI") == "SI";
  }

  /** "sí", "Sí" and "si" all become "SI"; "No" becomes "NO". */
  lemma MultiplierSpellings()
    ensures NormalizeMultiplier("s\U{ED}") == "SI"
    ensures NormalizeMultiplier("S\U{ED}") == "SI"
    ensures NormalizeMultiplier("si") == "SI"
    ensures NormalizeMultiplier("No") == "NO"
  {
    assert Upper("s\U{ED}") == AccentedYes;
    assert Upper("S\U{ED}") == AccentedYes;
    assert Upper("si") == "SI";
    assert Upper("No") == "NO";
  }

  /**
   * Normalising the official file succeeds exactly when every padded
   * combination starts with five digits, and then keeps every row, in order,
   * each stamped with NPRODUCTO 60 and holding digits 0..9 in R1..R5.
   */
  lemma NormalizeAllRows(raw: seq<OfficialRow>)
    ensures NormalizeAll(raw).Success? <==>
      forall i :: 0 <= i < |raw| ==> AllDigits(PaddedCombination(raw[i])[..CombinationWidth])
    ensures NormalizeAll(raw).Success? ==>
      var rows := NormalizeAll(raw).value;
      && |rows| == |raw|
      && forall i :: 0 <= i < |raw| ==>
           && rows[i].nproducto == ProductCode
           && rows[i].concurso == raw[i].sorteo
           && HasDigitColumns(rows[i])
           && CombinationOf(rows[i]) == PaddedCombination(raw[i])[..CombinationWidth]
  {
    if NormalizeAll(raw).Success? {
      forall i | 0 <= i < |raw|
        ensures var d := NormalizeAll(raw).value[i];
          && d.nproducto == ProductCode && d.concurso == raw[i].sorteo && HasDigitColumns(d)
          && CombinationOf(d) == PaddedCombination(raw[i])[..CombinationWidth]
      {
        NormalizeRowColumns(raw[i]);
      }
    }
  }

  // ---------------------------------------------------------------------------
  // The merge

  function Concursos(rows: seq<Drawing>): (cs: seq<int>)
    ensures |cs| == |rows| && forall i :: 0 <= i < |rows| ==> cs[i] == rows[i].concurso
  {
    seq(|rows|, i requires 0 <= i < |rows| => rows[i].concurso)
  }

  /** The local ledger as a table: an absent file is an empty table (`pd.DataFrame()`). */
  function LocalRows(localFile: Option<seq<Drawing>>): seq<Drawing> {
    if localFile.None? then [] else localFile.value
  }

  /**
   * The high-water mark: the largest CONCURSO of the local ledger, and 0 when
   * there is no local file or (corrected, see the findings) it holds no rows.
   */
  function HighWaterMark(localFile: Option<seq<Drawing>>): (mark: int)
    ensures LocalRows(localFile) == [] ==> mark == 0
    ensures LocalRows(localFile) != [] ==>
      && (exists d :: d in LocalRows(localFile) && d.concurso == mark)
      && forall d :: d in LocalRows(localFile) ==> d.concurso <= mark
  {
    var local := LocalRows(localFile);
    if local == [] then 0
    else
      var m := Max(Concursos(local));
      assert forall d :: d in local ==> d.concurso in Concursos(local);
      m
  }

  /**
   * `df_oficial[df_oficial["CONCURSO"] > mark]`: the official rows strictly
   * above the mark, each as often as it occurs there, in their order.
   */
  function Accepted(official: seq<Drawing>, mark: int): (nuevos: seq<Drawing>)
    ensures forall d :: d in nuevos <==> d in official && d.concurso > mark
    ensures forall d :: multiset(nuevos)[d] == if d.concurso > mark then multiset(official)[d] else 0
  {
    if official == [] then []
    else
      var rest := Accepted(official[1..], mark);
      assert official == [official[0]] + official[1..];
      if official[0].concurso > mark then [official[0]] + rest else rest
  }

  predicate SortedByConcursoDesc(rows: seq<Drawing>) {
    forall i, j :: 0 <= i < j < |rows| ==> rows[i].concurso >= rows[j].concurso
  }

  /**
   * What `pd.concat([df_local, nuevos]).sort_values("CONCURSO", ascending=False)`
   * may produce: the rows of both tables, most recent first; the sort is not
   * stable, so rows with equal CONCURSO may come in any order.
   */
  predicate IsMergeOf(local: seq<Drawing>, nuevos: seq<Drawing>, merged: seq<Drawing>) {
    multiset(merged) == multiset(local + nuevos) && SortedByConcursoDesc(merged)
  }

  lemma PrependSorted(x: Drawing, rows: seq<Drawing>)
    requires SortedByConcursoDesc(rows) && (rows == [] || x.concurso >= rows[0].concurso)
    ensures SortedByConcursoDesc([x] + rows)
  {
  }

  lemma SortedTail(rows: seq<Drawing>)
    requires SortedByConcursoDesc(rows) && rows != []
    ensures SortedByConcursoDesc(rows[1..])
  {
  }

  /** Inserts one row into a table sorted by CONCURSO, descending. */
  function InsertDesc(d: Drawing, sorted: seq<Drawing>): (r: seq<Drawing>)
    requires SortedByConcursoDesc(sorted)
    ensures SortedByConcursoDesc(r) && multiset(r) == multiset(sorted) + multiset{d}
  {
    if sorted == [] || d.concurso >= sorted[0].concurso then
      PrependSorted(d, sorted);
      [d] + sorted
    else
      var head, tail := sorted[0], sorted[1..];
      assert sorted == [head] + tail;
      SortedTail(sorted);
      var rest := InsertDesc(d, tail);
      assert d in multiset(rest);
      assert rest[0] in multiset(tail) + multiset{d};
      PrependSorted(head, rest);
      [head] + rest
  }

  /** One order the sort may produce. */
  function SortDesc(rows: seq<Drawing>): (r: seq<Drawing>)
    ensures SortedByConcursoDesc(r) && multiset(r) == multiset(rows)
  {
    if rows == [] then []
    else
      assert rows == [rows[0]] + rows[1..];
      InsertDesc(rows[0], SortDesc(rows[1..]))
  }

  /** The result of one run: nothing written, or the new ledger written out. */
  datatype Outcome = NoNewDrawings | Written(ledger: seq<Drawing>)

  /** The outcomes actualizar_tris may have, once the official rows are normalised. */
  predicate IsUpdate(localFile: Option<seq<Drawing>>, official: seq<Drawing>, o: Outcome) {
    var nuevos := Accepted(official, HighWaterMark(localFile));
    if nuevos == [] then o == NoNewDrawings
    else o.Written? && IsMergeOf(LocalRows(localFile), nuevos, o.ledger)
  }

  /** The merge of actualizar_tris with the sort's order fixed by SortDesc. */
  function Update(localFile: Option<seq<Drawing>>, official: seq<Drawing>): (o: Outcome)
    ensures IsUpdate(localFile, official, o)
  {
    var nuevos := Accepted(official, HighWaterMark(localFile));
    if nuevos == [] then NoNewDrawings
    else Written(SortDesc(LocalRows(localFile) + nuevos))
  }

  /**
   * actualizar_tris: normalise the downloaded rows (an error aborts the run),
   * then merge them into the local ledger.
   */
  method UpdateLedger(localFile: Option<seq<Drawing>>, officialRaw: seq<OfficialRow>)
    returns (r: Result<Outcome, NormalizeError>)
    ensures r.Failure? <==> NormalizeAll(officialRaw).Failure?
    ensures r.Success? ==> IsUpdate(localFile, NormalizeAll(officialRaw).value, r.value)
  {
    var official := NormalizeCsv(officialRaw);
    if official.Failure? {
      return Failure(official.error);
    }
    r := Success(Update(localFile, official.value));
  }

  // ---------------------------------------------------------------------------
  // Properties of the merge, for every order the sort may choose

  /** A run writes a new ledger exactly when some official row is above the mark. */
  lemma WritesIffNewerRow(localFile: Option<seq<Drawing>>, official: seq<Drawing>, o: Outcome)
    requires IsUpdate(localFile, official, o)
    ensures o.Written? <==> exists d :: d in official && d.concurso > HighWaterMark(localFile)
  {
    var nuevos := Accepted(official, HighWaterMark(localFile));
    if d :| d in official && d.concurso > HighWaterMark(localFile) {
      assert d in nuevos;
    }
  }

  /**
   * Nothing local is lost: every local row is in the new ledger as often as
   * before, the new ledger is sorted most recent first, and its length is the
   * local length plus the number of accepted rows.
   */
  lemma LocalRowsKept(localFile: Option<seq<Drawing>>, official: seq<Drawing>, t: seq<Drawing>)
    requires IsUpdate(localFile, official, Written(t))
    ensures multiset(LocalRows(localFile)) <= multiset(t)
    ensures SortedByConcursoDesc(t)
    ensures |t| == |LocalRows(localFile)| + |Accepted(official, HighWaterMark(localFile))|
  {
    var local := LocalRows(localFile);
    var nuevos := Accepted(official, HighWaterMark(localFile));
    assert multiset(t) == multiset(local) + multiset(nuevos);
    assert |multiset(t)| == |t|;
  }

  /**
   * Only strictly newer rows enter: a row of the new ledger is local or is an
   * official row above the mark, and every official row above the mark is in it.
   */
  lemma OnlyNewerRowsEnter(localFile: Option<seq<Drawing>>, official: seq<Drawing>, t: seq<Drawing>)
    requires IsUpdate(localFile, official, Written(t))
    ensures forall d :: d in t ==>
      d in LocalRows(localFile) || (d in official && d.concurso > HighWaterMark(localFile))
    ensures forall d :: d in official && d.concurso > HighWaterMark(localFile) ==> d in t
  {
    var local := LocalRows(localFile);
    var nuevos := Accepted(official, HighWaterMark(localFile));
    forall d | d in t
      ensures d in local || (d in official && d.concurso > HighWaterMark(localFile))
    {
      assert d in multiset(t);
    }
    forall d | d in official && d.concurso > HighWaterMark(localFile) ensures d in t {
      assert d in multiset(local + nuevos);
    }
  }

  /** A backfill row, at or below the mark and missing locally, is dropped. */
  lemma BackfillDropped(localFile: Option<seq<Drawing>>, official: seq<Drawing>, t: seq<Drawing>, d: Drawing)
    requires IsUpdate(localFile, official, Written(t))
    requires d in official && d.concurso <= HighWaterMark(localFile) && d !in LocalRows(localFile)
    ensures d !in t
  {
    OnlyNewerRowsEnter(localFile, official, t);
  }

  /**
   * Re-running with the same official rows on the written ledger accepts
   * nothing, so the second run writes nothing.
   */
  lemma RerunAcceptsNothing(localFile: Option<seq<Drawing>>, official: seq<Drawing>, t: seq<Drawing>)
    requires IsUpdate(localFile, official, Written(t))
    ensures HighWaterMark(Some(t)) > HighWaterMark(localFile)
    ensures Accepted(official, HighWaterMark(Some(t))) == []
  {
    var mark := HighWaterMark(localFile);
    var nuevos := Accepted(official, mark);
    OnlyNewerRowsEnter(localFile, official, t);
    var x := nuevos[0];
    assert x in official && x.concurso > mark;
    NothingAboveNewMark(official, mark, t, x);
  }

  /** Every official row above `mark` is in `t`, so none is above the mark of `t`. */
  lemma NothingAboveNewMark(official: seq<Drawing>, mark: int, t: seq<Drawing>, x: Drawing)
    requires forall d :: d in official && d.concurso > mark ==> d in t
    requires x in t && x.concurso > mark
    ensures HighWaterMark(Some(t)) > mark
    ensures Accepted(official, HighWaterMark(Some(t))) == []
  {
    var again := Accepted(official, HighWaterMark(Some(t)));
    assert forall d :: d in again ==> d in t;
  }

  /** A second run on the written ledger with the same official rows writes nothing. */
  lemma RerunWritesNothing(localFile: Option<seq<Drawing>>, official: seq<Drawing>, t: seq<Drawing>, o: Outcome)
    requires IsUpdate(localFile, official, Written(t))
    requires IsUpdate(Some(t), official, o)
    ensures o == NoNewDrawings
  {
    RerunAcceptsNothing(localFile, official, t);
  }

  /** The example of a ledger at 35000 offered drawings 35001 and 34000: only 35001 is accepted. */
  lemma AcceptsOnlyAboveMarkExample(local: Drawing, newer: Drawing, older: Drawing)
    requires local.concurso == 35000 && newer.concurso == 35001 && older.concurso == 34000
    ensures HighWaterMark(Some([local])) == 35000
    ensures Accepted([newer, older], HighWaterMark(Some([local]))) == [newer]
  {
    assert Concursos([local]) == [35000];
  }

  // ---------------------------------------------------------------------------
  // The high-water mark as written

  /**
   * `df_local["CONCURSO"].max()` as written: a local file that exists but
   * holds no rows gives NaN, here `None`.
   */
  function HighWaterMarkAsWritten(localFile: Option<seq<Drawing>>): (mark: Option<int>)
    ensures mark.None? <==> localFile == Some([])
    ensures mark.Some? ==> mark.value == HighWaterMark(localFile)
  {
    if localFile.None? then Some(0)
    else if localFile.value == [] then None
    else Some(Max(Concursos(localFile.value)))
  }

  /**
   * One entry of the mask `df_oficial["CONCURSO"] > ultimo_local` as written:
   * a comparison with NaN is false.
   */
  predicate AboveAsWritten(concurso: int, mark: Option<int>) {
    mark.Some? && concurso > mark.value
  }

  /**
   * The filter as written, row by row with that mask: with NaN it keeps no
   * row, and with a number it is the corrected filter.
   */
  function AcceptedAsWritten(official: seq<Drawing>, mark: Option<int>): (nuevos: seq<Drawing>)
    ensures mark.None? ==> nuevos == []
    ensures mark.Some? ==> nuevos == Accepted(official, mark.value)
  {
    if official == [] then []
    else
      var rest := AcceptedAsWritten(official[1..], mark);
      if AboveAsWritten(official[0].concurso, mark) then [official[0]] + rest else rest
  }

  /**
   * As written, a ledger file with a header and no rows never grows: drawing 1
   * is refused although the corrected mark, 0, accepts it.
   */
  lemma EmptyLedgerFileNeverGrows(first: Drawing)
    requires first.concurso == 1
    ensures AcceptedAsWritten([first], HighWaterMarkAsWritten(Some([]))) == []
    ensures Accepted([first], HighWaterMark(Some([]))) == [first]
    ensures Update(Some([]), [first]) == Written([first])
  {
    assert LocalRows(Some([])) + [first] == [first];
    assert SortDesc([first]) == InsertDesc(first, SortDesc([]));
  }
}
