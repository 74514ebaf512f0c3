/**
  The `horimetros` route. `GET` answers either the latest reading of one
  equipment or the whole list, each item annotated in place with the previous
  reading of its equipment and the hours worked since; `POST` records a new
  reading unless it is below the latest one of its equipment.
 */
module HorimetrosRoute {
  import opened Wrappers
  import opened JsStrings
  import opened HorimetroReadings

  const Unauthorized := "Não autorizado"
  const RegressionMessage := "Leitura não pode ser menor que a última registrada."

  /** A row of the list as the handler holds it: the fetched fields and the two it adds. */
  class Item {
    const reading: Reading
    var leituraAnterior: Option<real>
    var horasTrabalhadas: Option<real>

    constructor (reading: Reading)
      ensures this.reading == reading && leituraAnterior == None && horasTrabalhadas == None
    {
      this.reading := reading;
      leituraAnterior := None;
      horasTrabalhadas := None;
    }
  }

  datatype Body = Message(text: string) | Single(reading: Option<Reading>) | List(items: seq<Item>) | Row(row: Reading)

  /** A JSON response with its status, or an exception the handler does not catch. */
  datatype Response = Reply(status: nat, body: Body) | Unhandled

  function ReadingsOf(items: seq<Item>): (r: seq<Reading>)
    ensures |r| == |items| && forall i :: 0 <= i < |items| ==> r[i] == items[i].reading
  {
    seq(|items|, i requires 0 <= i < |items| => items[i].reading)
  }

  /** No object appears twice: the rows of a query answer are separate objects. */
  predicate Distinct(items: seq<Item>) {
    forall j, k :: 0 <= j < k < |items| ==> items[j] != items[k]
  }

  // ---------------------------------------------------------------- the working order

  predicate Sorted(items: seq<Item>) {
    forall j, k :: 0 <= j < k < |items| ==> !Before(items[k].reading, items[j].reading)
  }

  lemma SortedReadings(items: seq<Item>)
    requires Sorted(items)
    ensures SortedAsc(ReadingsOf(items))
  {
  }

  /** An item that precedes none of a sorted list may go at its end. */
  lemma AppendSorted(t: seq<Item>, x: Item)
    requires Sorted(t)
    requires forall y :: y in t ==> !Before(x.reading, y.reading)
    ensures Sorted(t + [x])
  {
    assert forall j :: 0 <= j < |t| ==> t[j] in t;
  }

  /** `x` goes after the last item it does not precede. */
  lemma InsertAfterLast(t: seq<Item>, x: Item)
    requires Sorted(t) && t != [] && !Before(x.reading, t[|t| - 1].reading)
    ensures Sorted(t + [x])
  {
    var last := t[|t| - 1];
    forall y | y in t ensures !Before(x.reading, y.reading) {
      var j :| 0 <= j < |t| && t[j] == y;
      if j < |t| - 1 {
        NotBeforeTransitive(y.reading, last.reading, x.reading);
      }
    }
    AppendSorted(t, x);
  }

  /** `x` went into the list before `last`, which stays after every item. */
  lemma InsertBeforeLast(init: seq<Item>, last: Item, x: Item, u: seq<Item>)
    requires Sorted(init + [last]) && Before(x.reading, last.reading)
    requires Sorted(u) && multiset(u) == multiset(init) + multiset{x}
    ensures Sorted(u + [last])
  {
    forall y | y in u ensures !Before(last.reading, y.reading) {
      assert y in multiset(u);
      if y == x {
        BeforeAsymmetric(x.reading, last.reading);
      } else {
        assert y in multiset(init);
        var j :| 0 <= j < |init| && init[j] == y;
        assert (init + [last])[j] == y && (init + [last])[|init|] == last;
      }
    }
    AppendSorted(u, last);
  }

  /** `x` placed into a sorted list after every item it does not precede. */
  function InsertAsc(t: seq<Item>, x: Item): (r: seq<Item>)
    requires Sorted(t)
    ensures multiset(r) == multiset(t) + multiset{x}
    ensures Sorted(r)
    decreases |t|
  {
    if t == [] then [x]
    else
      var init, last := t[..|t| - 1], t[|t| - 1];
      assert t == init + [last];
      if Before(x.reading, last.reading) then
        var u := InsertAsc(init, x);
        InsertBeforeLast(init, last, x, u);
        u + [last]
      else
        InsertAfterLast(t, x);
        t + [x]
  }

  /**
    `items.slice().sort(...)` with the comparator by equipment and then date: a
    stable sort (an item goes after the items it does not precede) into the
    working order.
   */
  function SortAsc(items: seq<Item>): (r: seq<Item>)
    ensures multiset(r) == multiset(items)
    ensures Sorted(r)
  {
    if items == [] then []
    else
      assert items == items[..|items| - 1] + [items[|items| - 1]];
      InsertAsc(SortAsc(items[..|items| - 1]), items[|items| - 1])
  }

  /** A permutation of separate objects holds separate objects. */
  lemma {:induction false} PermutationDistinct(a: seq<Item>, b: seq<Item>)
    requires multiset(a) == multiset(b) && Distinct(b)
    ensures Distinct(a)
  {
    forall j, k | 0 <= j < k < |a| ensures a[j] != a[k] {
      if a[j] == a[k] {
        var x := a[j];
        assert a == a[..j] + [x] + a[j + 1..k] + [x] + a[k + 1..];
        assert multiset(a)[x] >= 2;
        MultiplicityOne(b, x);
      }
    }
  }

  lemma {:induction false} MultiplicityOne(b: seq<Item>, x: Item)
    requires Distinct(b)
    ensures multiset(b)[x] <= 1
  {
    if b != [] {
      var init := b[..|b| - 1];
      assert b == init + [b[|b| - 1]];
      MultiplicityOne(init, x);
      if b[|b| - 1] == x {
        assert x !in init;
      }
    }
  }

  // ---------------------------------------------------------------- the annotation loop

  /** Every item holds the fields derived for its position in the working order. */
  predicate Annotated(order: seq<Item>)
    reads set it | it in order
  {
    forall k :: 0 <= k < |order| ==>
      order[k].leituraAnterior == Previous(ReadingsOf(order), k)
      && order[k].horasTrabalhadas == Hours(ReadingsOf(order), k)
  }

  /**
    The `for ... of sortedAsc` loop: each item takes the last `leitura` seen for
    its equipment, or null, and the difference, and then becomes the last one seen.
   */
  method Annotate(sortedAsc: seq<Item>)
    requires Distinct(sortedAsc)
    modifies set it | it in sortedAsc
    ensures Annotated(sortedAsc)
  {
    var lastReadings: map<string, real> := map[];
    ghost var rs := ReadingsOf(sortedAsc);
    for k := 0 to |sortedAsc|
      invariant lastReadings == LastMap(rs[..k])
      invariant forall j :: 0 <= j < k ==>
                  sortedAsc[j].leituraAnterior == Previous(rs, j) && sortedAsc[j].horasTrabalhadas == Hours(rs, j)
    {
      var item := sortedAsc[k];
      var previous := if item.reading.equipamentoId in lastReadings
                      then Some(lastReadings[item.reading.equipamentoId]) else None;
      item.leituraAnterior := previous;
      item.horasTrabalhadas := if previous.Some? then Some(item.reading.leitura - previous.value) else None;
      lastReadings := lastReadings[item.reading.equipamentoId := item.reading.leitura];
      assert rs[..k + 1][..k] == rs[..k];
    }
  }

  // ---------------------------------------------------------------- GET

  /** `latest === "true" && equipamentoId`: an empty id is falsy. */
  predicate LatestRequested(equipamentoId: Option<string>, latest: Option<string>) {
    latest == Some("true") && equipamentoId.Some? && equipamentoId.value != ""
  }

  /**
    `GET`. `auth` is the user the request authenticates as; `table` is what the
    latest-reading query searches and `latestRow` its answer; `fetched` is the
    answer of the list query as separate objects (an absent answer is the empty
    list); `queryError` is the error the query that runs reports, if any.
   */
  method Get(auth: Option<string>, equipamentoId: Option<string>, latest: Option<string>,
             table: seq<Reading>, latestRow: Option<Reading>, fetched: seq<Item>, queryError: Option<string>)
    returns (response: Response)
    requires auth.Some? && LatestRequested(equipamentoId, latest) && queryError.None?
             ==> LatestAnswer(table, equipamentoId.value, latestRow)
    requires Distinct(fetched)
    modifies set it | it in fetched
    ensures auth.None? ==> response == Reply(401, Message(Unauthorized))
    ensures auth.Some? && LatestRequested(equipamentoId, latest) ==>
              response == (if queryError.Some? then Reply(500, Message(queryError.value))
                           else Reply(200, Single(latestRow)))
    ensures auth.Some? && LatestRequested(equipamentoId, latest) && queryError.None? ==>
              (response.body.reading.None? <==> forall i :: 0 <= i < |table| ==> table[i].equipamentoId != equipamentoId.value)
    ensures auth.Some? && !LatestRequested(equipamentoId, latest) && queryError.Some? ==>
              response == Reply(500, Message(queryError.value))
    ensures auth.Some? && !LatestRequested(equipamentoId, latest) && queryError.None? ==>
              response == Reply(200, List(fetched)) && Annotated(SortAsc(fetched))
  {
    if auth.None? {
      return Reply(401, Message(Unauthorized));
    }
    if LatestRequested(equipamentoId, latest) {
      if queryError.Some? {
        return Reply(500, Message(queryError.value));
      }
      return Reply(200, Single(latestRow));
    }
    if queryError.Some? {
      return Reply(500, Message(queryError.value));
    }
    var items := fetched;
    var sortedAsc := SortAsc(items);
    PermutationDistinct(sortedAsc, items);
    assert forall it :: it in sortedAsc ==> it in items by {
      forall it | it in sortedAsc ensures it in items {
        assert it in multiset(sortedAsc);
      }
    }
    Annotate(sortedAsc);
    return Reply(200, List(items));
  }

  /** The two example readings as the list query returns them, newest first, are sorted January first. */
  lemma TwoReadingsSorted(feb: Item, jan: Item)
    requires feb.reading == FebruaryReading && jan.reading == JanuaryReading
    ensures SortAsc([feb, jan]) == [jan, feb]
  {
    JanuaryBeforeFebruary();
    SortTwo(feb, jan);
    InsertBeforeSingle(feb, jan);
  }

  lemma SortTwo(x: Item, y: Item)
    ensures SortAsc([x, y]) == InsertAsc([x], y)
  {
    assert [x][..0] == [];
    assert SortAsc([x]) == [x];
    assert [x, y][..1] == [x];
  }

  lemma InsertBeforeSingle(y: Item, x: Item)
    requires Before(x.reading, y.reading)
    ensures InsertAsc([y], x) == [x, y]
  {
    assert [y][..0] == [];
  }

  /**
    After the loop over that order, January has no previous reading and no hours,
    and February has 100 as its previous reading and 80 hours worked.
   */
  lemma TwoReadingsAnnotated(feb: Item, jan: Item)
    requires feb.reading == FebruaryReading && jan.reading == JanuaryReading
    requires Annotated([jan, feb])
    ensures jan.leituraAnterior == None && jan.horasTrabalhadas == None
    ensures feb.leituraAnterior == Some(100.0) && feb.horasTrabalhadas == Some(80.0)
  {
    TwoReadingsExample();
    assert ReadingsOf([jan, feb]) == [JanuaryReading, FebruaryReading];
  }

  // ---------------------------------------------------------------- POST

  /** The request body, before the schema checks it. */
  datatype Payload = Payload(equipamentoId: string, dataReferencia: string, leitura: real, observacao: Option<string>)

  /** The zod schema: non-empty equipment id and date, a reading of at least zero. */
  predicate ValidPayload(p: Payload) {
    |p.equipamentoId| >= 1 && |p.dataReferencia| >= 1 && p.leitura >= 0.0
  }

  /** The regression gate: the latest-reading query found a reading and the new one is below it. */
  predicate Regresses(last: Option<Reading>, p: Payload) {
    last.Some? && p.leitura < last.value.leitura
  }

  /** The row the insert stores: the payload, the id the database assigns and the author. */
  function NewRow(p: Payload, id: string, usuarioId: string): (r: Reading)
    ensures r.equipamentoId == p.equipamentoId && r.dataReferencia == p.dataReferencia && r.leitura == p.leitura
  {
    Reading(id, p.equipamentoId, p.dataReferencia, p.leitura, p.observacao, usuarioId)
  }

  /** The `horimetros` table. */
  class Store {
    var rows: seq<Reading>

    constructor (rows: seq<Reading>)
      ensures this.rows == rows
    {
      this.rows := rows;
    }
  }

  /**
    `POST`. `lastReading` is the answer of the latest-reading query; `lastError`
    and `insertError` are the errors the two queries report, if any; `newId` is
    the id the database gives the new row.
   */
  method Post(store: Store, auth: Option<string>, payload: Payload, lastReading: Option<Reading>,
              lastError: Option<string>, insertError: Option<string>, newId: string)
    returns (response: Response)
    requires auth.Some? && ValidPayload(payload) && lastError.None?
             ==> LatestAnswer(store.rows, payload.equipamentoId, lastReading)
    modifies store
    ensures auth.None? ==> response == Reply(401, Message(Unauthorized))
    ensures auth.Some? && !ValidPayload(payload) ==> response == Unhandled
    ensures auth.Some? && ValidPayload(payload) && lastError.Some? ==> response == Reply(500, Message(lastError.value))
    ensures auth.Some? && ValidPayload(payload) && lastError.None? ==>
              (response == Reply(400, Message(RegressionMessage)) <==> Regresses(lastReading, payload))
    ensures auth.Some? && ValidPayload(payload) && lastError.None? && !Regresses(lastReading, payload) ==>
              response == (if insertError.Some? then Reply(500, Message(insertError.value))
                           else Reply(201, Row(NewRow(payload, newId, auth.value))))
    ensures store.rows == (if response.Reply? && response.status == 201
                           then old(store.rows) + [NewRow(payload, newId, auth.value)] else old(store.rows))
  {
    if auth.None? {
      return Reply(401, Message(Unauthorized));
    }
    if !ValidPayload(payload) {
      return Unhandled;
    }
    if lastError.Some? {
      return Reply(500, Message(lastError.value));
    }
    if lastReading.Some? && payload.leitura < lastReading.value.leitura {
      return Reply(400, Message(RegressionMessage));
    }
    if insertError.Some? {
      return Reply(500, Message(insertError.value));
    }
    var row := NewRow(payload, newId, auth.value);
    store.rows := store.rows + [row];
    return Reply(201, Row(row));
  }

  /** The first reading of an equipment is never rejected. */
  lemma FirstReadingAccepted(rows: seq<Reading>, p: Payload, last: Option<Reading>)
    requires LatestAnswer(rows, p.equipamentoId, last)
    requires forall i :: 0 <= i < |rows| ==> rows[i].equipamentoId != p.equipamentoId
    ensures !Regresses(last, p)
  {
  }

  /**
    When one reading of the equipment is dated after all the others, the gate
    rejects exactly the readings below it; an equal reading passes.
   */
  lemma RegressesIffBelowNewest(rows: seq<Reading>, p: Payload, last: Option<Reading>, j: nat)
    requires LatestAnswer(rows, p.equipamentoId, last)
    requires j < |rows| && rows[j].equipamentoId == p.equipamentoId
    requires forall i :: 0 <= i < |rows| && i != j && rows[i].equipamentoId == p.equipamentoId
                         ==> LocaleLess(rows[i].dataReferencia, rows[j].dataReferencia)
    ensures Regresses(last, p) <==> p.leitura < rows[j].leitura
  {
    NewestIsTheAnswer(rows, p.equipamentoId, last, j);
  }

  const TiedLow := Reading("1", "e", "2024-01-01", 100.0, None, "u")
  const TiedHigh := Reading("2", "e", "2024-01-01", 200.0, None, "u")

  /**
    When two readings share the newest date, which one the query returns is the
    database's choice, and the verdict depends on it: a reading of 150 passes
    against the 100 and is refused against the 200.
   */
  lemma TiedDatesLeaveTheVerdictOpen()
    ensures LatestAnswer([TiedLow, TiedHigh], "e", Some(TiedLow))
    ensures LatestAnswer([TiedLow, TiedHigh], "e", Some(TiedHigh))
    ensures !Regresses(Some(TiedLow), Payload("e", "2024-01-02", 150.0, None))
    ensures Regresses(Some(TiedHigh), Payload("e", "2024-01-02", 150.0, None))
  {
    LocaleLessIrreflexive("2024-01-01");
    var rows := [TiedLow, TiedHigh];
    assert TiedLow == rows[0] && TiedHigh == rows[1];
  }

  /**
    The gate keeps the readings of an equipment growing with the date, for a new
    reading dated after all the recorded ones of its equipment.
   */
  lemma AcceptedKeepsNonDecreasing(rows: seq<Reading>, p: Payload, last: Option<Reading>, id: string, usuarioId: string)
    requires LatestAnswer(rows, p.equipamentoId, last)
    requires DistinctDates(rows, p.equipamentoId) && NonDecreasingByDate(rows, p.equipamentoId)
    requires forall i :: 0 <= i < |rows| && rows[i].equipamentoId == p.equipamentoId
                         ==> LocaleLess(rows[i].dataReferencia, p.dataReferencia)
    requires !Regresses(last, p)
    ensures DistinctDates(rows + [NewRow(p, id, usuarioId)], p.equipamentoId)
    ensures NonDecreasingByDate(rows + [NewRow(p, id, usuarioId)], p.equipamentoId)
  {
    var e := p.equipamentoId;
    var s := rows + [NewRow(p, id, usuarioId)];
    var n := |rows|;
    forall j, k | 0 <= j < k < |s| && s[j].equipamentoId == e && s[k].equipamentoId == e
      ensures s[j].dataReferencia != s[k].dataReferencia
    {
      if k == n {
        LocaleLessIrreflexive(p.dataReferencia);
      }
    }
    forall j, k | 0 <= j < |s| && 0 <= k < |s| && s[j].equipamentoId == e && s[k].equipamentoId == e
                  && LocaleLess(s[j].dataReferencia, s[k].dataReferencia)
      ensures s[j].leitura <= s[k].leitura
    {
      if j == n && k < n {
        LocaleLessTransitive(p.dataReferencia, rows[k].dataReferencia, p.dataReferencia);
        LocaleLessIrreflexive(p.dataReferencia);
      } else if k == n && j < n {
        var newest := last.value;
        var m :| 0 <= m < n && rows[m] == newest;
        if m != j {
          assert !LocaleLess(newest.dataReferencia, rows[j].dataReferencia);
          LocaleLessTotal(newest.dataReferencia, rows[j].dataReferencia);
        }
      } else if j == n && k == n {
        LocaleLessIrreflexive(p.dataReferencia);
      }
    }
  }
}
