/**
  Hour-meter readings as the `horimetros` route sees them: the working order
  the list is sorted into, the two fields derived for every reading (the
  previous reading of the same equipment and the hours worked since), and the
  reading the latest-reading query answers.
 */
module HorimetroReadings {
  import opened Wrappers
  import opened JsStrings
  import opened SeqUtils

  /** A row of the `horimetros` table; `dataReferencia` is an ISO date. */
  datatype Reading = Reading(id: string, equipamentoId: string, dataReferencia: string, leitura: real,
                             observacao: Option<string>, usuarioId: string)

  // ---------------------------------------------------------------- the working order

  /** The comparator of the sort is negative: by equipment, then by date. */
  predicate Before(x: Reading, y: Reading) {
    if x.equipamentoId == y.equipamentoId then LocaleLess(x.dataReferencia, y.dataReferencia)
    else LocaleLess(x.equipamentoId, y.equipamentoId)
  }

  /** Ascending in the working order: no reading comes before one it precedes. */
  predicate SortedAsc(s: seq<Reading>) {
    forall j, k :: 0 <= j < k < |s| ==> !Before(s[k], s[j])
  }

  lemma BeforeIrreflexive(x: Reading)
    ensures !Before(x, x)
  {
    LocaleLessIrreflexive(x.dataReferencia);
  }

  lemma BeforeTransitive(x: Reading, y: Reading, z: Reading)
    requires Before(x, y) && Before(y, z)
    ensures Before(x, z)
  {
    if x.equipamentoId == y.equipamentoId && y.equipamentoId == z.equipamentoId {
      LocaleLessTransitive(x.dataReferencia, y.dataReferencia, z.dataReferencia);
    } else if x.equipamentoId == z.equipamentoId {
      LocaleLessTransitive(x.equipamentoId, y.equipamentoId, x.equipamentoId);
      LocaleLessIrreflexive(x.equipamentoId);
    } else if x.equipamentoId == y.equipamentoId {
    } else if y.equipamentoId == z.equipamentoId {
    } else {
      LocaleLessTransitive(x.equipamentoId, y.equipamentoId, z.equipamentoId);
    }
  }

  /** The comparator answers zero only for the same equipment on the same date. */
  lemma BeforeTotal(x: Reading, y: Reading)
    requires !Before(x, y) && !Before(y, x)
    ensures x.equipamentoId == y.equipamentoId && x.dataReferencia == y.dataReferencia
  {
    if x.equipamentoId != y.equipamentoId {
      LocaleLessTotal(x.equipamentoId, y.equipamentoId);
    } else if x.dataReferencia != y.dataReferencia {
      LocaleLessTotal(x.dataReferencia, y.dataReferencia);
    }
  }

  lemma BeforeAsymmetric(x: Reading, y: Reading)
    requires Before(x, y)
    ensures !Before(y, x)
  {
    if Before(y, x) {
      BeforeTransitive(x, y, x);
      BeforeIrreflexive(x);
    }
  }

  /** "Not after" is transitive: the order the sort puts readings in is consistent. */
  lemma NotBeforeTransitive(x: Reading, y: Reading, z: Reading)
    requires !Before(y, x) && !Before(z, y)
    ensures !Before(z, x)
  {
    if Before(z, x) {
      if Before(x, y) {
        BeforeTransitive(z, x, y);
      } else {
        BeforeTotal(x, y);
      }
    }
  }

  /**
    The working order groups the readings by equipment: between two readings of
    one equipment there is no reading of another.
   */
  lemma SortedGroupsEquipment(s: seq<Reading>, j: nat, m: nat, k: nat)
    requires SortedAsc(s) && j < m < k < |s| && s[j].equipamentoId == s[k].equipamentoId
    ensures s[m].equipamentoId == s[j].equipamentoId
  {
    if s[m].equipamentoId != s[j].equipamentoId {
      assert !Before(s[m], s[j]) && !Before(s[k], s[m]);
      LocaleLessTotal(s[j].equipamentoId, s[m].equipamentoId);
    }
  }

  /** Within one equipment the working order is date order. */
  lemma SortedDates(s: seq<Reading>, j: nat, k: nat)
    requires SortedAsc(s) && j < k < |s| && s[j].equipamentoId == s[k].equipamentoId
    requires s[j].dataReferencia != s[k].dataReferencia
    ensures LocaleLess(s[j].dataReferencia, s[k].dataReferencia)
  {
    assert !Before(s[k], s[j]);
    LocaleLessTotal(s[j].dataReferencia, s[k].dataReferencia);
  }

  // ---------------------------------------------------------------- the derived fields

  /** The running map of the annotation loop after `s`: each equipment's most recent `leitura`. */
  function LastMap(s: seq<Reading>): map<string, real> {
    if s == [] then map[]
    else LastMap(s[..|s| - 1])[s[|s| - 1].equipamentoId := s[|s| - 1].leitura]
  }

  /** `leitura_anterior` of the reading at position `i` of the working order. */
  function Previous(s: seq<Reading>, i: nat): Option<real>
    requires i < |s|
  {
    var m := LastMap(s[..i]);
    if s[i].equipamentoId in m then Some(m[s[i].equipamentoId]) else None
  }

  /** `horas_trabalhadas` of that reading: null exactly when `leitura_anterior` is. */
  function Hours(s: seq<Reading>, i: nat): Option<real>
    requires i < |s|
  {
    match Previous(s, i)
    case None => None
    case Some(p) => Some(s[i].leitura - p)
  }

  lemma {:induction false} LastMapAbsent(s: seq<Reading>, e: string)
    ensures e !in LastMap(s) <==> forall j :: 0 <= j < |s| ==> s[j].equipamentoId != e
  {
    if s != [] {
      var t := s[..|s| - 1];
      LastMapAbsent(t, e);
      assert forall j :: 0 <= j < |t| ==> t[j] == s[j];
    }
  }

  /** The map holds, for `e`, the `leitura` of the last reading of `e`. */
  lemma {:induction false} LastMapAt(s: seq<Reading>, e: string, j: nat)
    requires j < |s| && s[j].equipamentoId == e
    requires forall m :: j < m < |s| ==> s[m].equipamentoId != e
    ensures e in LastMap(s) && LastMap(s)[e] == s[j].leitura
  {
    if j < |s| - 1 {
      var t := s[..|s| - 1];
      assert forall m :: 0 <= m < |t| ==> t[m] == s[m];
      LastMapAt(t, e, j);
    }
  }

  /** Conversely, what the map holds for `e` comes from the last reading of `e`. */
  lemma {:induction false} LastMapSource(s: seq<Reading>, e: string) returns (j: nat)
    requires e in LastMap(s)
    ensures j < |s| && s[j].equipamentoId == e && LastMap(s)[e] == s[j].leitura
    ensures forall m :: j < m < |s| ==> s[m].equipamentoId != e
  {
    var t := s[..|s| - 1];
    if s[|s| - 1].equipamentoId == e {
      j := |s| - 1;
    } else {
      j := LastMapSource(t, e);
      assert forall m :: 0 <= m < |t| ==> t[m] == s[m];
    }
  }

  /** The readings of equipment `e`. */
  function OfEquipment(e: string): Reading -> bool {
    (r: Reading) => r.equipamentoId == e
  }

  /** What the map holds for `e` depends only on the readings of `e`. */
  lemma {:induction false} LastMapFiltered(s: seq<Reading>, e: string)
    ensures var f := LastMap(Filter(s, OfEquipment(e)));
            (e in LastMap(s) <==> e in f) && (e in f ==> LastMap(s)[e] == f[e])
  {
    if s != [] {
      LastMapFiltered(s[..|s| - 1], e);
    }
  }

  /**
    The first reading of an equipment in the working order, and only the first,
    gets no previous reading and no hours worked.
   */
  lemma FirstReadingHasNoPrevious(s: seq<Reading>, i: nat)
    requires i < |s|
    ensures Previous(s, i).None? <==> forall j :: 0 <= j < i ==> s[j].equipamentoId != s[i].equipamentoId
    ensures Hours(s, i).None? <==> Previous(s, i).None?
  {
    var t := s[..i];
    LastMapAbsent(t, s[i].equipamentoId);
    assert forall j :: 0 <= j < i ==> t[j] == s[j];
  }

  /**
    A later reading gets the `leitura` of the closest earlier reading of the same
    equipment, and the difference as hours worked.
   */
  lemma PreviousIsClosestEarlier(s: seq<Reading>, i: nat, j: nat)
    requires j < i < |s| && s[j].equipamentoId == s[i].equipamentoId
    requires forall m :: j < m < i ==> s[m].equipamentoId != s[i].equipamentoId
    ensures Previous(s, i) == Some(s[j].leitura)
    ensures Hours(s, i) == Some(s[i].leitura - s[j].leitura)
  {
    var t := s[..i];
    assert forall m :: 0 <= m < i ==> t[m] == s[m];
    LastMapAt(t, s[i].equipamentoId, j);
  }

  /** A previous reading is always the `leitura` of the closest earlier reading of the same equipment. */
  lemma PreviousSource(s: seq<Reading>, i: nat) returns (j: nat)
    requires i < |s| && Previous(s, i).Some?
    ensures j < i && s[j].equipamentoId == s[i].equipamentoId && Previous(s, i) == Some(s[j].leitura)
    ensures forall m :: j < m < i ==> s[m].equipamentoId != s[i].equipamentoId
  {
    var t := s[..i];
    j := LastMapSource(t, s[i].equipamentoId);
    assert forall m :: 0 <= m < i ==> t[m] == s[m];
  }

  /**
    Readings of other equipment never affect the derived fields: two working
    orders in which a reading is preceded by the same readings of its own
    equipment give it the same previous reading and the same hours.
   */
  lemma DerivedFieldsIsolated(s: seq<Reading>, i: nat, t: seq<Reading>, k: nat)
    requires i < |s| && k < |t| && s[i] == t[k]
    requires Filter(s[..i], OfEquipment(s[i].equipamentoId)) == Filter(t[..k], OfEquipment(s[i].equipamentoId))
    ensures Previous(s, i) == Previous(t, k) && Hours(s, i) == Hours(t, k)
  {
    LastMapFiltered(s[..i], s[i].equipamentoId);
    LastMapFiltered(t[..k], s[i].equipamentoId);
  }

  /** No two readings of `e` share a date. */
  predicate DistinctDates(s: seq<Reading>, e: string) {
    forall j, k :: 0 <= j < k < |s| && s[j].equipamentoId == e && s[k].equipamentoId == e
                   ==> s[j].dataReferencia != s[k].dataReferencia
  }

  /** The readings of `e` never go down as the date goes up. */
  predicate NonDecreasingByDate(s: seq<Reading>, e: string) {
    forall j, k ::
      (0 <= j < |s| && 0 <= k < |s| && s[j].equipamentoId == e && s[k].equipamentoId == e
       && LocaleLess(s[j].dataReferencia, s[k].dataReferencia)) ==> s[j].leitura <= s[k].leitura
  }

  /**
    When the readings of an equipment grow with the date, every hours-worked
    value derived for it in the working order is at least zero.
   */
  lemma HoursNonNegative(s: seq<Reading>, e: string)
    requires SortedAsc(s) && DistinctDates(s, e) && NonDecreasingByDate(s, e)
    ensures forall i :: 0 <= i < |s| && s[i].equipamentoId == e && Hours(s, i).Some? ==> Hours(s, i).value >= 0.0
  {
    forall i | 0 <= i < |s| && s[i].equipamentoId == e && Hours(s, i).Some?
      ensures Hours(s, i).value >= 0.0
    {
      var j := PreviousSource(s, i);
      SortedDates(s, j, i);
    }
  }

  /** Two readings of one equipment, 100 on 2024-01-01 and 180 on 2024-02-01. */
  const JanuaryReading := Reading("1", "e", "2024-01-01", 100.0, None, "u")
  const FebruaryReading := Reading("2", "e", "2024-02-01", 180.0, None, "u")

  lemma JanuaryBeforeFebruary()
    ensures Before(JanuaryReading, FebruaryReading)
  {
    assert LocaleLess("1-01", "2-01");
    LocaleLessCommonPrefix("2024-0", "1-01", "2-01");
    assert JanuaryReading.dataReferencia == "2024-0" + "1-01";
    assert FebruaryReading.dataReferencia == "2024-0" + "2-01";
  }

  /**
    On the readings alone: they are in working order, the first has no previous
    reading, and the second worked 80 hours. `TwoReadingsAnnotated` carries this
    over to the annotated list objects.
   */
  lemma TwoReadingsExample()
    ensures SortedAsc([JanuaryReading, FebruaryReading])
    ensures Previous([JanuaryReading, FebruaryReading], 0) == None
    ensures Hours([JanuaryReading, FebruaryReading], 0) == None
    ensures Previous([JanuaryReading, FebruaryReading], 1) == Some(100.0)
    ensures Hours([JanuaryReading, FebruaryReading], 1) == Some(80.0)
  {
    var s := [JanuaryReading, FebruaryReading];
    assert SortedAsc(s) by {
      JanuaryBeforeFebruary();
      BeforeAsymmetric(s[0], s[1]);
    }
    assert Previous(s, 0) == None by {
      assert s[..0] == [];
    }
    PreviousIsClosestEarlier(s, 1, 0);
  }

  // ---------------------------------------------------------------- the latest reading

  /**
    What the latest-reading query for equipment `e` (ordered by date, newest
    first, `limit(1)`, `maybeSingle`) may answer: null exactly when `e` has no
    readings, otherwise one of its readings that no other reading of `e` is
    dated after. Among readings sharing the newest date the choice is the
    database's, so every such reading is an allowed answer.
   */
  predicate LatestAnswer(rows: seq<Reading>, e: string, a: Option<Reading>) {
    && (a.None? <==> forall i :: 0 <= i < |rows| ==> rows[i].equipamentoId != e)
    && (a.Some? ==> a.value in rows && a.value.equipamentoId == e)
    && (a.Some? ==> forall i :: 0 <= i < |rows| && rows[i].equipamentoId == e
                              ==> !LocaleLess(a.value.dataReferencia, rows[i].dataReferencia))
  }

  /**
    One answer the query may give: the first reading of `e` in table order among
    those no other reading of `e` is dated after. It shows that an allowed answer
    always exists.
   */
  function Latest(rows: seq<Reading>, e: string): (r: Option<Reading>)
    ensures LatestAnswer(rows, e, r)
  {
    if rows == [] then None
    else
      var rest := Latest(rows[1..], e);
      assert forall i :: 1 <= i < |rows| ==> rows[i] == rows[1..][i - 1];
      if rows[0].equipamentoId != e then rest
      else if rest.Some? && LocaleLess(rows[0].dataReferencia, rest.value.dataReferencia) then
        assert !LocaleLess(rest.value.dataReferencia, rows[0].dataReferencia) by {
          if LocaleLess(rest.value.dataReferencia, rows[0].dataReferencia) {
            LocaleLessTransitive(rows[0].dataReferencia, rest.value.dataReferencia, rows[0].dataReferencia);
            LocaleLessIrreflexive(rows[0].dataReferencia);
          }
        }
        rest
      else
        assert forall i :: 0 <= i < |rows| && rows[i].equipamentoId == e
                           ==> !LocaleLess(rows[0].dataReferencia, rows[i].dataReferencia) by {
          LocaleLessIrreflexive(rows[0].dataReferencia);
          forall i | 1 <= i < |rows| && rows[i].equipamentoId == e
            ensures !LocaleLess(rows[0].dataReferencia, rows[i].dataReferencia)
          {
            NotLocaleLessTransitive(rows[0].dataReferencia, rest.value.dataReferencia, rows[i].dataReferencia);
          }
        }
        Some(rows[0])
  }

  /**
    When one reading of `e` is dated after all the others, it is the only answer
    the query can give.
   */
  lemma NewestIsTheAnswer(rows: seq<Reading>, e: string, a: Option<Reading>, j: nat)
    requires LatestAnswer(rows, e, a)
    requires j < |rows| && rows[j].equipamentoId == e
    requires forall i :: 0 <= i < |rows| && i != j && rows[i].equipamentoId == e
                         ==> LocaleLess(rows[i].dataReferencia, rows[j].dataReferencia)
    ensures a == Some(rows[j])
  {
    assert a.Some?;
    var r := a.value;
    var i :| 0 <= i < |rows| && rows[i] == r;
    if i != j {
      assert !LocaleLess(r.dataReferencia, rows[j].dataReferencia);
    }
  }
}
