/**
 * The "similar numbers" panel of the dashboard (app.py): up to five values
 * close to the selected number (rearrangements of its digits, then its
 * neighbours and zero-extended forms), each with its history in the records
 * of the chosen mode.
 *
 * The page itself is not modelled: the selection and the records of the mode
 * (`df_modalidad`) are parameters, and the table is returned instead of drawn.
 */
module SimilarNumbers {
  import opened Wrappers
  import opened Text
  import opened Seqs

  /** The number of similar values shown. */
  const Limit := 5

  // ---------------------------------------------------------------------------
  // generar_similares_inteligentes

  /** `set("".join(p) for p in permutations(s, len(s)))`: every arrangement of the characters of `s`. */
  function Permutations(s: string): set<string>
    decreases |s|
  {
    if s == [] then {[]}
    else set i, p | 0 <= i < |s| && p in Permutations(s[..i] + s[i + 1..]) :: [s[i]] + p
  }

  /** Taking out the character at `i` takes one `s[i]` out of the multiset. */
  lemma RemoveAt(s: string, i: nat)
    requires i < |s|
    ensures multiset(s) == multiset(s[..i] + s[i + 1..]) + multiset{s[i]}
  {
    assert s == s[..i] + [s[i]] + s[i + 1..];
  }

  /** Every arrangement of `s` has the characters of `s`, each as often. */
  lemma {:induction false} PermutationIsRearrangement(s: string, p: string)
    requires p in Permutations(s)
    ensures multiset(p) == multiset(s)
    decreases |s|
  {
    if s != [] {
      var i, q :| 0 <= i < |s| && q in Permutations(s[..i] + s[i + 1..]) && p == [s[i]] + q;
      PermutationIsRearrangement(s[..i] + s[i + 1..], q);
      RemoveAt(s, i);
    }
  }

  /** Every string with the characters of `s`, each as often, is an arrangement of `s`. */
  lemma {:induction false} RearrangementIsPermutation(s: string, p: string)
    requires multiset(p) == multiset(s)
    ensures p in Permutations(s)
    decreases |s|
  {
    assert |p| == |multiset(p)| == |s|;
    if s != [] {
      assert p[0] in multiset(s);
      var i :| 0 <= i < |s| && s[i] == p[0];
      var rest := s[..i] + s[i + 1..];
      RemoveAt(s, i);
      assert p == [p[0]] + p[1..];
      calc {
        multiset(p[1..]);
        multiset(p) - multiset{p[0]};
        multiset(s) - multiset{s[i]};
        multiset(rest);
      }
      RearrangementIsPermutation(rest, p[1..]);
      assert p == [s[i]] + p[1..];
    }
  }

  /** The arrangements of `s` are exactly the strings with the same characters, as often. */
  lemma PermutationsAreRearrangements(s: string, p: string)
    ensures p in Permutations(s) <==> multiset(p) == multiset(s)
  {
    if p in Permutations(s) {
      PermutationIsRearrangement(s, p);
    }
    if multiset(p) == multiset(s) {
      RearrangementIsPermutation(s, p);
    }
  }

  /** The rearrangements of `num`'s digits other than `num` (`perms.discard(num)`). */
  function OtherPermutations(num: string): set<string> {
    Permutations(num) - {num}
  }

  /** `order` lists every element of `s` once: an iteration order of the Python set. */
  ghost predicate IsEnumeration(order: seq<string>, s: set<string>) {
    NoDuplicates(order) && forall x :: x in order <==> x in s
  }

  /**
   * The fillers, in the order they are tried: the lower and the upper
   * neighbour zero-filled to the input's width, then "0" + num and num + "0".
   */
  function Fillers(num: string): seq<string>
    requires IsNumeral(num)
  {
    var n: int := Value(num);
    [ZFill(IntToString(n - 1), |num|), ZFill(IntToString(n + 1), |num|), "0" + num, num + "0"]
  }

  /** `if len(s) < 5: s.append(x)`. */
  function AppendIfShort(s: seq<string>, x: string): seq<string> {
    if |s| < Limit then s + [x] else s
  }

  /**
   * The four guarded appends: each filler is appended while the list has
   * fewer than five entries.
   */
  function AppendWhileShort(s0: seq<string>, f: seq<string>): (c: seq<string>)
    requires |s0| <= Limit && |f| == 4
    ensures c == s0 + Take(f, Limit - |s0|)
  {
    assert f[..1] == [f[0]] && f[..2] == [f[0], f[1]] && f[..3] == [f[0], f[1], f[2]];
    AppendIfShort(AppendIfShort(AppendIfShort(AppendIfShort(s0, f[0]), f[1]), f[2]), f[3])
  }

  /**
   * The list before deduplication: the permutations while there are fewer
   * than five entries, then each filler while there are fewer than five.
   */
  function Candidates(order: seq<string>, num: string): (c: seq<string>)
    requires IsNumeral(num)
    ensures c == Take(order, Limit) + Take(Fillers(num), Limit - |Take(order, Limit)|)
  {
    AppendWhileShort(Take(order, Limit), Fillers(num))
  }

  /** `list(dict.fromkeys(similares))[:5]` applied to the candidates. */
  function SimilarFrom(order: seq<string>, num: string): seq<string>
    requires IsNumeral(num)
  {
    Take(Dedup(Candidates(order, num)), Limit)
  }

  /** A neighbour of a different value, zero-filled to the input's width, is not the input. */
  lemma NeighbourDiffers(num: string, m: int)
    requires IsNumeral(num) && m != Value(num)
    ensures ZFill(IntToString(m), |num|) != num
  {
    var t := IntToString(m);
    if m < 0 {
      assert HasSign(t);
      assert ZFill(t, |num|)[0] == '-';
      assert IsDigit(num[0]);
    } else {
      ZFillDigits(t, |num|);
    }
  }

  /** No filler is the input: each differs from it in value, sign or length. */
  lemma FillersDifferFromInput(num: string)
    requires IsNumeral(num)
    ensures num !in Fillers(num)
  {
    var n: int := Value(num);
    NeighbourDiffers(num, n - 1);
    NeighbourDiffers(num, n + 1);
    assert |"0" + num| != |num| && |num + "0"| != |num|;
  }

  /**
   * For an all-zero input the lower neighbour is -1, and `zfill` keeps the
   * minus sign in front of the fill: "0" gives "-1", "000" gives "-01".
   */
  lemma LowerNeighbourOfZero(num: string)
    requires IsNumeral(num) && Value(num) == 0
    ensures var f := Fillers(num)[0];
      && |f| == (if |num| >= 2 then |num| else 2)
      && f[0] == '-' && f[|f| - 1] == '1'
      && forall i :: 1 <= i < |f| - 1 ==> f[i] == '0'
  {
    assert DigitChar(1) == '1';
    assert IntToString(-1) == "-1";
  }

  /**
   * Deduplicating `s0 + rest` and keeping five, when `s0` is at most five
   * distinct values: `s0` stays whole at the front, and the rest comes from
   * `rest`.
   */
  lemma DedupCutShape(s0: seq<string>, rest: seq<string>)
    requires |s0| <= Limit && NoDuplicates(s0)
    ensures var r := Take(Dedup(s0 + rest), Limit);
      && |s0| <= |r| <= Limit
      && r[..|s0|] == s0
      && NoDuplicates(r)
      && forall x :: x in r ==> x in s0 || x in rest
  {
    DedupPrefix(s0, rest);
    DedupDistinct(s0);
    var dd := Dedup(s0 + rest);
    assert dd[..|s0|] == s0;
    var r := Take(dd, Limit);
    assert forall i, j :: 0 <= i < j < |r| ==> r[i] == dd[i] && r[j] == dd[j];
    assert forall x :: x in r ==> x in dd;
  }

  /**
   * The list shown has at most five entries, none twice and never the input,
   * whatever order the set of permutations is walked in.
   */
  lemma SimilarBounded(order: seq<string>, num: string)
    requires IsNumeral(num) && IsEnumeration(order, OtherPermutations(num))
    ensures var r := SimilarFrom(order, num);
      |r| <= Limit && NoDuplicates(r) && num !in r
  {
    var s0 := Take(order, Limit);
    var rest := Take(Fillers(num), Limit - |s0|);
    assert SimilarFrom(order, num) == Take(Dedup(s0 + rest), Limit);
    assert NoDuplicates(s0);
    DedupCutShape(s0, rest);
    assert num !in s0 by {
      assert num !in order;
    }
    assert num !in rest by {
      FillersDifferFromInput(num);
    }
  }

  /** Deduplication keeps the permutations, which are distinct, at the front. */
  lemma SimilarStartsWithPermutations(order: seq<string>, num: string)
    requires IsNumeral(num) && NoDuplicates(order)
    ensures var r := SimilarFrom(order, num);
      |r| >= |Take(order, Limit)| && r[..|Take(order, Limit)|] == Take(order, Limit)
  {
    var s0 := Take(order, Limit);
    assert NoDuplicates(s0);
    DedupCutShape(s0, Take(Fillers(num), Limit - |s0|));
  }

  /**
   * Permutations come first: the first min(5, |order|) entries are the
   * permutations in the order the set gives them, each a rearrangement of
   * the input's digits with its length.
   */
  lemma PermutationsFirst(order: seq<string>, num: string)
    requires IsNumeral(num) && IsEnumeration(order, OtherPermutations(num))
    ensures var r := SimilarFrom(order, num); var k := |Take(order, Limit)|;
      && |r| >= k
      && r[..k] == Take(order, Limit)
      && forall i :: 0 <= i < k ==> |r[i]| == |num| && multiset(r[i]) == multiset(num) && r[i] != num
  {
    var r := SimilarFrom(order, num);
    var s0 := Take(order, Limit);
    SimilarStartsWithPermutations(order, num);
    forall i | 0 <= i < |s0| ensures |r[i]| == |num| && multiset(r[i]) == multiset(num) && r[i] != num {
      assert r[i] == r[..|s0|][i] == s0[i];
      assert s0[i] in order;
      OtherPermutationShape(num, s0[i]);
    }
  }

  /** Another arrangement of `num` has its length and its digits, each as often. */
  lemma OtherPermutationShape(num: string, p: string)
    requires p in OtherPermutations(num)
    ensures |p| == |num| && multiset(p) == multiset(num) && p != num
  {
    PermutationIsRearrangement(num, p);
    assert |p| == |multiset(p)|;
  }

  /** With at least five other permutations the list is five of them and nothing else. */
  lemma ManyPermutations(order: seq<string>, num: string)
    requires IsNumeral(num) && IsEnumeration(order, OtherPermutations(num))
    requires |order| >= Limit
    ensures SimilarFrom(order, num) == order[..Limit]
  {
    PermutationsFirst(order, num);
  }

  /**
   * With fewer than five other permutations, all of them come first and the
   * rest of the list is made of fillers.
   */
  lemma FewPermutations(order: seq<string>, num: string)
    requires IsNumeral(num) && IsEnumeration(order, OtherPermutations(num))
    requires |order| < Limit
    ensures var r := SimilarFrom(order, num);
      && |r| >= |order|
      && r[..|order|] == order
      && forall i :: |order| <= i < |r| ==> r[i] in Fillers(num)
  {
    var r := SimilarFrom(order, num);
    var rest := Take(Fillers(num), Limit - |order|);
    assert Take(order, Limit) == order;
    DedupCutShape(order, rest);
    forall i | |order| <= i < |r| ensures r[i] in Fillers(num) {
      assert r[i] in rest;
    }
  }

  /** A single digit is its only arrangement. */
  lemma SingleDigitPermutations(num: string)
    requires |num| == 1
    ensures OtherPermutations(num) == {}
  {
    forall p | p in Permutations(num) ensures p == num {
      PermutationIsRearrangement(num, p);
      assert num == [num[0]];
      assert |p| == |multiset(p)| == 1;
      assert p[0] in multiset(num);
    }
  }

  /** So the walk over the permutations of a single digit is empty. */
  lemma SingleDigitHasNoOtherPermutation(num: string, order: seq<string>)
    requires |num| == 1 && IsEnumeration(order, OtherPermutations(num))
    ensures order == []
  {
    if order != [] {
      var p := order[0];
      assert p in OtherPermutations(num);
      SingleDigitPermutations(num);
      assert false;
    }
  }

  /** The fillers of "5": its neighbours 4 and 6, then "05" and "50". */
  lemma FillersOfFive()
    ensures Fillers("5") == ["4", "6", "05", "50"]
  {
    assert Value("5") == 5;
    assert DigitChar(4) == '4' && DigitChar(6) == '6';
    assert IntToString(4) == "4" && IntToString(6) == "6";
    assert ZFill("4", 1) == "4" && ZFill("6", 1) == "6";
    assert "0" + "5" == "05" && "5" + "0" == "50";
  }

  /** Without permutations the candidates of "5" are its four fillers. */
  lemma CandidatesOfFive()
    ensures Candidates([], "5") == ["4", "6", "05", "50"]
  {
    FillersOfFive();
  }

  /** The four candidates of "5" are distinct, so all are kept. */
  lemma DedupOfFiveCandidates()
    ensures Take(Dedup(["4", "6", "05", "50"]), Limit) == ["4", "6", "05", "50"]
  {
    DedupDistinct(["4", "6", "05", "50"]);
  }

  /** "5" gives ["4", "6", "05", "50"]. */
  lemma SimilarOfFive(order: seq<string>)
    requires IsEnumeration(order, OtherPermutations("5"))
    ensures SimilarFrom(order, "5") == ["4", "6", "05", "50"]
  {
    SingleDigitHasNoOtherPermutation("5", order);
    CandidatesOfFive();
    DedupOfFiveCandidates();
  }

  /** The fillers of "0": its neighbours -1 and 1, then "00" twice. */
  lemma FillersOfZero()
    ensures Fillers("0") == ["-1", "1", "00", "00"]
  {
    assert Value("0") == 0;
    assert DigitChar(1) == '1';
    assert IntToString(-1) == "-1" && IntToString(1) == "1";
    assert ZFill("-1", 1) == "-1" && ZFill("1", 1) == "1";
    assert "0" + "0" == "00";
  }

  /** Without permutations the candidates of "0" are its four fillers. */
  lemma CandidatesOfZero()
    ensures Candidates([], "0") == ["-1", "1", "00", "00"]
  {
    FillersOfZero();
  }

  /** The repeated "00" is dropped. */
  lemma DedupOfZeroCandidates()
    ensures Take(Dedup(["-1", "1", "00", "00"]), Limit) == ["-1", "1", "00"]
  {
    var c := ["-1", "1", "00", "00"];
    var d := ["-1", "1", "00"];
    DedupDistinct(d);
    assert c[..|c| - 1] == d;
  }

  /**
   * "0" gives ["-1", "1", "00"]: the lower neighbour keeps its minus sign in
   * front, and the two "00" fillers collapse into one.
   */
  lemma SimilarOfZero(order: seq<string>)
    requires IsEnumeration(order, OtherPermutations("0"))
    ensures SimilarFrom(order, "0") == ["-1", "1", "00"]
  {
    SingleDigitHasNoOtherPermutation("0", order);
    CandidatesOfZero();
    DedupOfZeroCandidates();
  }

  /**
   * The `for p in perms` loop of generar_similares_inteligentes: the set is
   * walked in some order and its elements are appended while there are fewer
   * than five.
   */
  method TakeFromSet(perms: set<string>) returns (similares: seq<string>, ghost order: seq<string>)
    ensures IsEnumeration(order, perms) && similares == Take(order, Limit)
  {
    similares := [];
    order := [];
    var remaining := perms;
    while remaining != {}
      invariant remaining <= perms
      invariant NoDuplicates(order)
      invariant forall x :: x in order <==> x in perms && x !in remaining
      invariant similares == Take(order, Limit)
      decreases |remaining|
    {
      var p :| p in remaining;
      if |similares| < Limit {
        similares := similares + [p];
      }
      assert (order + [p])[..|similares|] == similares;
      order := order + [p];
      remaining := remaining - {p};
    }
  }

  /**
   * Steps 2 and 3 of generar_similares_inteligentes: the neighbours n - 1 and
   * n + 1 zero-filled to the input's width, then "0" + num and num + "0",
   * each appended while the list has fewer than five entries.
   */
  method AppendFillers(similares0: seq<string>, num: string) returns (similares: seq<string>)
    requires IsNumeral(num) && |similares0| <= Limit
    ensures similares == similares0 + Take(Fillers(num), Limit - |similares0|)
  {
    var largo := |num|;
    var n: int := Value(num);
    similares := similares0;
    if |similares| < Limit {
      similares := similares + [ZFill(IntToString(n - 1), largo)];
    }
    if |similares| < Limit {
      similares := similares + [ZFill(IntToString(n + 1), largo)];
    }
    if |similares| < Limit {
      similares := similares + ["0" + num];
    }
    if |similares| < Limit {
      similares := similares + [num + "0"];
    }
    assert similares == AppendWhileShort(similares0, Fillers(num));
  }

  /** generar_similares_inteligentes. */
  method GenerateSimilar(num: string) returns (similares: seq<string>)
    requires IsNumeral(num)
    ensures exists order :: IsEnumeration(order, OtherPermutations(num)) && similares == SimilarFrom(order, num)
    ensures |similares| <= Limit && NoDuplicates(similares) && num !in similares
  {
    var perms := OtherPermutations(num);
    ghost var order;
    similares, order := TakeFromSet(perms);
    similares := AppendFillers(similares, num);
    assert similares == Candidates(order, num);
    similares := Take(Dedup(similares), Limit);
    SimilarBounded(order, num);
  }

  // ---------------------------------------------------------------------------
  // The table of similar values

  /** A record of the chosen mode: CONCURSO, FECHA (as an ordinal) and JUGADA. */
  datatype Play = Play(concurso: int, fecha: int, jugada: string)

  /** A row of the table; `Never` is the row shown as "Nunca" / "N/A". */
  datatype StatRow =
    | Seen(numero: string, apariciones: nat, ultimaFecha: int, sorteosSinSalir: int)
    | Never(numero: string)

  function Jugadas(plays: seq<Play>): seq<string> {
    seq(|plays|, i requires 0 <= i < |plays| => plays[i].jugada)
  }

  function Fechas(plays: seq<Play>): (fs: seq<int>)
    ensures |fs| == |plays| && forall i :: 0 <= i < |plays| ==> fs[i] == plays[i].fecha
  {
    seq(|plays|, i requires 0 <= i < |plays| => plays[i].fecha)
  }

  function Concursos(plays: seq<Play>): (cs: seq<int>)
    ensures |cs| == |plays| && forall i :: 0 <= i < |plays| ==> cs[i] == plays[i].concurso
  {
    seq(|plays|, i requires 0 <= i < |plays| => plays[i].concurso)
  }

  /** `df_modalidad[df_modalidad["JUGADA"] == s]`. */
  function Matches(plays: seq<Play>, s: string): (m: seq<Play>)
    ensures forall p :: p in m <==> p in plays && p.jugada == s
    ensures |m| == multiset(Jugadas(plays))[s]
  {
    if plays == [] then []
    else
      var rest := Matches(plays[1..], s);
      assert plays == [plays[0]] + plays[1..];
      assert Jugadas(plays) == [plays[0].jugada] + Jugadas(plays[1..]);
      if plays[0].jugada == s then [plays[0]] + rest else rest
  }

  /** The table row of one similar value. */
  function StatFor(s: string, plays: seq<Play>): StatRow {
    var d := Matches(plays, s);
    if d == [] then Never(s)
    else
      assert d[0] in plays;
      Seen(s, |d|, Max(Fechas(d)), Max(Concursos(plays)) - Max(Concursos(d)))
  }

  /** A value gets the "Nunca" row exactly when no record has it as JUGADA. */
  lemma StatForNever(s: string, plays: seq<Play>)
    ensures StatFor(s, plays).numero == s
    ensures StatFor(s, plays).Never? <==> forall p :: p in plays ==> p.jugada != s
  {
  }

  /** Apariciones is the number of records whose JUGADA is the value. */
  lemma StatForCount(s: string, plays: seq<Play>)
    requires StatFor(s, plays).Seen?
    ensures StatFor(s, plays).apariciones == multiset(Jugadas(plays))[s] >= 1
  {
  }

  /** "Última fecha" is the date of a record of the value (`newest`), and no record of it is later. */
  lemma StatForLastDate(s: string, plays: seq<Play>) returns (newest: Play)
    requires StatFor(s, plays).Seen?
    ensures newest in plays && newest.jugada == s && newest.fecha == StatFor(s, plays).ultimaFecha
    ensures forall p :: p in plays && p.jugada == s ==> p.fecha <= newest.fecha
  {
    var d := Matches(plays, s);
    var fs := Fechas(d);
    var i :| 0 <= i < |fs| && fs[i] == Max(fs);
    newest := d[i];
    forall p | p in plays && p.jugada == s ensures p.fecha <= Max(fs) {
      assert p in d;
      var k :| 0 <= k < |d| && d[k] == p;
      assert fs[k] in fs;
    }
  }

  /**
   * "Sorteos sin salir" is the latest CONCURSO of all records (`latest`)
   * minus the latest CONCURSO among the records of the value (`lastSeen`),
   * so it is never negative.
   */
  lemma StatForGap(s: string, plays: seq<Play>) returns (latest: Play, lastSeen: Play)
    requires StatFor(s, plays).Seen?
    ensures latest in plays && forall x :: x in plays ==> x.concurso <= latest.concurso
    ensures lastSeen in plays && lastSeen.jugada == s
    ensures forall x :: x in plays && x.jugada == s ==> x.concurso <= lastSeen.concurso
    ensures StatFor(s, plays).sorteosSinSalir == latest.concurso - lastSeen.concurso >= 0
  {
    var d := Matches(plays, s);
    var cs, all := Concursos(d), Concursos(plays);
    assert StatFor(s, plays).sorteosSinSalir == Max(all) - Max(cs);
    lastSeen := LatestConcurso(d);
    latest := LatestConcurso(plays);
    assert forall x :: x in plays && x.jugada == s ==> x in d;
    SubsetConcursos(d, plays);
    MaxMonotone(cs, all);
  }

  /** The CONCURSO values of a subset of the records are among those of all records. */
  lemma SubsetConcursos(d: seq<Play>, plays: seq<Play>)
    requires forall x :: x in d ==> x in plays
    ensures forall c :: c in Concursos(d) ==> c in Concursos(plays)
  {
    var cs, all := Concursos(d), Concursos(plays);
    forall c | c in cs ensures c in all {
      var k :| 0 <= k < |cs| && cs[k] == c;
      assert d[k] in plays;
      var m :| 0 <= m < |plays| && plays[m] == d[k];
      assert all[m] == c;
    }
  }

  /** A record holding the largest CONCURSO. */
  lemma LatestConcurso(plays: seq<Play>) returns (p: Play)
    requires plays != []
    ensures p in plays && p.concurso == Max(Concursos(plays))
    ensures forall x :: x in plays ==> x.concurso <= p.concurso
  {
    var cs := Concursos(plays);
    var i :| 0 <= i < |cs| && cs[i] == Max(cs);
    p := plays[i];
    forall x | x in plays ensures x.concurso <= p.concurso {
      var k :| 0 <= k < |plays| && plays[k] == x;
      assert cs[k] == x.concurso;
      assert cs[k] in cs;
      assert cs[k] <= Max(cs);
      assert p.concurso == Max(cs);
    }
  }

  /** The loop that builds the table, one row per similar value. */
  method SimilarTable(similares: seq<string>, plays: seq<Play>) returns (tabla: seq<StatRow>)
    ensures |tabla| == |similares|
    ensures forall i :: 0 <= i < |similares| ==> tabla[i] == StatFor(similares[i], plays)
  {
    tabla := [];
    for i := 0 to |similares|
      invariant |tabla| == i
      invariant forall k :: 0 <= k < i ==> tabla[k] == StatFor(similares[k], plays)
    {
      tabla := tabla + [StatFor(similares[i], plays)];
    }
  }

  /**
   * The panel: a table only when the selection is a non-empty string of
   * digits, with one row for each similar value.
   */
  method SimilarPanel(seleccion: string, plays: seq<Play>) returns (tabla: Option<seq<StatRow>>)
    ensures tabla.Some? <==> IsNumeral(seleccion)
    ensures tabla.Some? ==>
      && |tabla.value| <= Limit
      && (forall i :: 0 <= i < |tabla.value| ==>
            tabla.value[i] == StatFor(tabla.value[i].numero, plays) && tabla.value[i].numero != seleccion)
      && (forall i, j :: 0 <= i < j < |tabla.value| ==> tabla.value[i].numero != tabla.value[j].numero)
    ensures tabla.Some? ==>
      exists order :: IsEnumeration(order, OtherPermutations(seleccion))
        && |tabla.value| == |SimilarFrom(order, seleccion)|
        && forall i :: 0 <= i < |tabla.value| ==> tabla.value[i] == StatFor(SimilarFrom(order, seleccion)[i], plays)
  {
    if !IsNumeral(seleccion) {
      return None;
    }
    var similares := GenerateSimilar(seleccion);
    ghost var order :| IsEnumeration(order, OtherPermutations(seleccion)) && similares == SimilarFrom(order, seleccion);
    var rows := SimilarTable(similares, plays);
    forall i | 0 <= i < |rows| ensures rows[i].numero == similares[i] {
      StatForNever(similares[i], plays);
    }
    return Some(rows);
  }
}
