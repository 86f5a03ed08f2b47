/** The numbering plan of database/seeds/seed_uscr_shj_arabic_demo.py: aggregations are dealt out to
    the classifications in turn, and records and components follow. */
module DemoNumbering {
  import opened Texts

  datatype Classification = Classification(id: nat, code: string)

  datatype Aggregation = Aggregation(sequence: nat, number: string, classification: nat)

  datatype Record = Record(sequence: nat, aggregation: nat, place: nat, number: string, components: nat)

  const YEAR: nat := 2026

  predicate Distinct(cs: seq<Classification>) {
    forall i, j :: 0 <= i < j < |cs| ==> cs[i].id != cs[j].id && cs[i].code != cs[j].code
  }

  // ---- numbers as text ----

  lemma LastIsDigit(a: string, x: string, mark: char)
    requires Digits(x) && !IsDigit(mark)
    ensures var s := a + [mark] + x;
      (IsDigit(s[|s| - 1]) <==> x != "") &&
        (x != "" ==> s[|s| - 1] == x[|x| - 1] && s[..|s| - 1] == a + [mark] + x[..|x| - 1]) &&
      (x == "" ==> s[|s| - 1] == mark && s[..|s| - 1] == a)
  {}

  /** A text that ends with a mark and digits says what comes before the mark, which mark, and the digits. */
  lemma {:induction false} SplitsAtMark(a: string, mark: char, x: string, b: string, mark': char, y: string)
    requires Digits(x) && Digits(y) && !IsDigit(mark) && !IsDigit(mark') && a + [mark] + x == b + [mark'] + y
    ensures a == b && mark == mark' && x == y
    decreases |x|
  {
    LastIsDigit(a, x, mark);
    LastIsDigit(b, y, mark');
    if x != "" {
      var x', y' := x[..|x| - 1], y[..|y| - 1];
      SplitsAtMark(a, mark, x', b, mark', y');
      assert x == x' + [x[|x| - 1]] && y == y' + [y[|y| - 1]];
    }
  }

  function AggregationNumber(code: string, serial: nat): string { code + "/" + Decimal(YEAR) + "/" + Decimal(serial) }

  function RecordNumber(aggregation: string, place: nat): string { aggregation + "." + Decimal(place) }

  lemma AggregationNumberIsInjective(code: string, serial: nat, code': string, serial': nat)
    requires AggregationNumber(code, serial) == AggregationNumber(code', serial')
    ensures code == code' && serial == serial'
  {
    DecimalIsDigits(serial);
    DecimalIsDigits(serial');
    DecimalIsDigits(YEAR);
    SplitsAtMark(code + "/" + Decimal(YEAR), '/', Decimal(serial), code' + "/" + Decimal(YEAR), '/', Decimal(serial'));
    SplitsAtMark(code, '/', Decimal(YEAR), code', '/', Decimal(YEAR));
    DecimalIsInjective(serial, serial');
  }

  lemma RecordNumberIsInjective(number: string, place: nat, number': string, place': nat)
    requires RecordNumber(number, place) == RecordNumber(number', place')
    ensures number == number' && place == place'
  {
    DecimalIsDigits(place);
    DecimalIsDigits(place');
    SplitsAtMark(number, '.', Decimal(place), number', '.', Decimal(place'));
    DecimalIsInjective(place, place');
  }

  lemma NumbersDiffer(code: string, serial: nat, number: string, place: nat)
    ensures AggregationNumber(code, serial) != RecordNumber(number, place)
  {
    DecimalIsDigits(serial);
    DecimalIsDigits(place);
    if AggregationNumber(code, serial) == RecordNumber(number, place) {
      SplitsAtMark(code + "/" + Decimal(YEAR), '/', Decimal(serial), number, '.', Decimal(place));
    }
  }

  // ---- the closed forms ----

  /** The serial of the `k`-th aggregation, counted from 1, among `n` classifications. */
  function Serial(k: nat, n: nat): nat
    requires k > 0 && n > 0
  {
    (k - 1) / n + 1
  }

  function RecordsIn(k: nat): nat { 3 + k % 3 }

  function ComponentsIn(r: nat): nat
    requires r > 0
  {
    1 + (r - 1) % 3
  }

  function RecordTotal(k: nat): nat { 3 * k + k / 3 * 3 + (if k % 3 == 0 then 0 else if k % 3 == 1 then 1 else 3) }

  function ComponentTotal(r: nat): nat { r / 3 * 6 + (if r % 3 == 0 then 0 else if r % 3 == 1 then 1 else 3) }

  lemma RecordTotalStep(k: nat)
    ensures RecordTotal(k + 1) == RecordTotal(k) + RecordsIn(k + 1)
  {}

  lemma ComponentTotalStep(r: nat)
    ensures ComponentTotal(r + 1) == ComponentTotal(r) + ComponentsIn(r + 1)
  {}

  /** The expected counts for 400 aggregations. */
  lemma ExpectedCounts()
    ensures RecordTotal(400) == 1600 && ComponentTotal(RecordTotal(400)) == 3199
  {}

  /** How many of the first `k` aggregations classification `c` of `n` got. */
  function Dealt(k: nat, n: nat, c: nat): nat
    requires n > 0
  {
    k / n + if c < k % n then 1 else 0
  }

  lemma DivStep(k: nat, n: nat)
    requires n > 0
    ensures
      if k % n + 1 < n then (k + 1) / n == k / n && (k + 1) % n == k % n + 1
      else (k + 1) / n == k / n + 1 && (k + 1) % n == 0
  {
    var q, r := k / n, k % n;
    assert k == q * n + r;
    if r + 1 < n { DivIs(k + 1, n, q, r + 1); } else { assert (q + 1) * n == q * n + n; DivIs(k + 1, n, q + 1, 0); }
  }

  lemma DivIs(k: nat, n: nat, q: nat, r: nat)
    requires 0 <= r < n && k == q * n + r
    ensures k / n == q && k % n == r
  {
    var d := k / n - q;
    assert k == k / n * n + k % n && d * n == k / n * n - q * n;
    Multiples(d, n);
  }

  lemma Multiples(d: int, n: int)
    requires n >= 0
    ensures (d >= 1 ==> d * n >= n) && (d <= -1 ==> d * n <= -n)
  {}

  /** The classification whose turn it is gets the next serial, and no other. */
  lemma DealtStep(k: nat, n: nat, c: nat)
    requires n > 0 && c < n
    ensures Dealt(k + 1, n, c) == Dealt(k, n, c) + (if c == k % n then 1 else 0)
    ensures c == k % n ==> Dealt(k + 1, n, c) == Serial(k + 1, n)
  {
    DivStep(k, n);
  }

  /** Each classification and serial belong to one aggregation only. */
  lemma SerialIsInjective(k: nat, j: nat, n: nat)
    requires n > 0 && k > 0 && j > 0 && (k - 1) % n == (j - 1) % n && Serial(k, n) == Serial(j, n)
    ensures k == j
  {
    assert k - 1 == (k - 1) / n * n + (k - 1) % n && j - 1 == (j - 1) / n * n + (j - 1) % n;
  }

  /** The serials of a classification are exactly those from 1 to the number of its aggregations. */
  lemma SerialsAreContiguous(count: nat, n: nat, c: nat, m: nat)
    requires n > 0 && c < n
    ensures (exists k :: 1 <= k <= count && (k - 1) % n == c && Serial(k, n) == m) <==> 1 <= m <= Dealt(count, n, c)
  {
    forall k | 1 <= k <= count && (k - 1) % n == c && Serial(k, n) == m ensures 1 <= m <= Dealt(count, n, c) {
      assert k - 1 == (m - 1) * n + c;
      DealtReaches(count, n, c, m);
    }
    if 1 <= m <= Dealt(count, n, c) {
      var k := (m - 1) * n + c + 1;
      DealtReaches(count, n, c, m);
      DivIs(k - 1, n, m - 1, c);
      assert 1 <= k <= count && (k - 1) % n == c && Serial(k, n) == m;
    }
  }

  lemma DealtReaches(count: nat, n: nat, c: nat, m: nat)
    requires n > 0 && c < n && m >= 1
    ensures m <= Dealt(count, n, c) <==> (m - 1) * n + c < count
  {
    var q, r := count / n, count % n;
    assert count == q * n + r && (q - (m - 1)) * n == q * n - (m - 1) * n;
    Multiples(q - (m - 1), n);
  }

  // ---- the plan ----

  function Planned(cs: seq<Classification>, k: nat): Aggregation
    requires cs != [] && k > 0
  {
    var c := cs[(k - 1) % |cs|];
    Aggregation(k, AggregationNumber(c.code, Serial(k, |cs|)), c.id)
  }

  ghost predicate PlannedRecord(cs: seq<Classification>, r: Record)
    requires cs != []
  {
    r.aggregation > 0 && 1 <= r.place <= RecordsIn(r.aggregation) && r.sequence > 0 &&
    r.sequence == RecordTotal(r.aggregation - 1) + r.place &&
    r.number == RecordNumber(Planned(cs, r.aggregation).number, r.place) && r.components == ComponentsIn(r.sequence)
  }

  /** Where record `i`, counted from 0, belongs: the records of one aggregation after the other. */
  ghost predicate InTurn(records: seq<Record>) {
    (records != [] ==> records[0].aggregation == 1 && records[0].place == 1) &&
    forall i :: 0 <= i < |records| - 1 ==>
      var r, next := records[i], records[i + 1];
      if r.place < 3 + r.aggregation % 3 then next.aggregation == r.aggregation && next.place == r.place + 1
      else next.aggregation == r.aggregation + 1 && next.place == 1
  }

  /** Aggregation `k` has all its records. */
  ghost predicate Through(records: seq<Record>, k: nat) {
    InTurn(records) && (if k == 0 then records == [] else records != []) && (records != [] ==>
      records[|records| - 1].aggregation == k && records[|records| - 1].place == 3 + k % 3)
  }

  lemma AllInTurn(records: seq<Record>, more: seq<Record>, k: nat)
    requires Through(records, k) && records <= more && |more| == |records| + RecordsIn(k + 1)
    requires forall i :: |records| <= i < |more| ==> more[i].aggregation == k + 1 && more[i].place == i - |records| + 1
    ensures Through(more, k + 1)
  {
    forall i | 0 <= i < |records| ensures more[i] == records[i] {}
  }

  /** An aggregation, and a record, by their parts. */
  lemma PlannedIs(cs: seq<Classification>, k: nat)
    requires cs != []
    ensures var c := cs[k % |cs|];
      Planned(cs, k + 1) == Aggregation(k + 1, c.code + "/" + Decimal(2026) + "/" + Decimal(k / |cs| + 1), c.id)
  {}

  lemma PlannedRecordIs(cs: seq<Classification>, r: Record)
    requires cs != [] && PlannedRecord(cs, r)
    ensures r.aggregation > 0 && r.sequence > 0 && r.components == 1 + (r.sequence - 1) % 3
    ensures r.number == Planned(cs, r.aggregation).number + "." + Decimal(r.place)
  {}

  /** The loops of `build_plan`, for any number of aggregations. */
  method BuildPlan(cs: seq<Classification>, count: nat)
    returns (aggregations: seq<Aggregation>, records: seq<Record>, components: nat)
    requires cs != [] && Distinct(cs)
    ensures |aggregations| == count && forall k :: 0 <= k < count ==> aggregations[k] == Planned(cs, k + 1)
    ensures |records| == RecordTotal(count) && components == ComponentTotal(|records|)
    ensures forall i :: 0 <= i < |records| ==>
      records[i].sequence == i + 1 && PlannedRecord(cs, records[i]) && records[i].aggregation <= count
    ensures forall k :: 0 <= k < count ==>
      var c := cs[k % |cs|];
      aggregations[k] == Aggregation(k + 1, c.code + "/" + Decimal(2026) + "/" + Decimal(k / |cs| + 1), c.id)
    ensures Through(records, count) && forall i :: 0 <= i < |records| ==>
      1 <= records[i].aggregation && records[i].components == 1 + i % 3 &&
      records[i].number == aggregations[records[i].aggregation - 1].number + "." + Decimal(records[i].place)
  {
    hide Through, RecordTotal, ComponentTotal, PlannedRecord, AggregationNumber, Dealt, RecordsIn;
    NothingDealt(cs);
    aggregations, records, components := [], [], 0;
    var serials: map<nat, nat> := map[];
    NothingThrough();
    var k := 0;
    while k < count
      invariant Through(records, k)
      invariant k <= count && |aggregations| == k && forall j :: 0 <= j < k ==> aggregations[j] == Planned(cs, j + 1)
      invariant forall c :: 0 <= c < |cs| ==>
        (if cs[c].id in serials then serials[cs[c].id] else 0) == Dealt(k, |cs|, c)
      invariant |records| == RecordTotal(k) && components == ComponentTotal(|records|)
      invariant forall i :: 0 <= i < |records| ==>
        records[i].sequence == i + 1 && PlannedRecord(cs, records[i]) && records[i].aggregation <= k
    {
      var classification := cs[k % |cs|];
      var serial := (if classification.id in serials then serials[classification.id] else 0) + 1;
      forall c | 0 <= c < |cs|
        ensures Dealt(k + 1, |cs|, c) == Dealt(k, |cs|, c) + (if c == k % |cs| then 1 else 0)
      {
        DealtStep(k, |cs|, c);
      }
      DealtStep(k, |cs|, k % |cs|);
      serials := serials[classification.id := serial];
      var number := AggregationNumber(classification.code, serial);
      aggregations := aggregations + [Aggregation(k + 1, number, classification.id)];
      RecordTotalStep(k);
      ghost var before := records;
      records, components := AddRecords(cs, k + 1, number, records, components);
      AllInTurn(before, records, k);
      k := k + 1;
    }
    forall k | 0 <= k < count
      ensures aggregations[k] ==
        Aggregation(k + 1, cs[k % |cs|].code + "/" + Decimal(2026) + "/" + Decimal(k / |cs| + 1), cs[k % |cs|].id)
    {
      PlannedIs(cs, k);
    }
    forall i | 0 <= i < |records|
      ensures records[i].aggregation > 0 && records[i].components == 1 + i % 3
      ensures records[i].number == Planned(cs, records[i].aggregation).number + "." + Decimal(records[i].place)
    {
      PlannedRecordIs(cs, records[i]);
    }
  }

  lemma NothingThrough()
    ensures Through([], 0)
  {}

  lemma NothingDealt(cs: seq<Classification>)
    requires cs != []
    ensures RecordTotal(0) == 0 && ComponentTotal(0) == 0 && forall c :: 0 <= c < |cs| ==> Dealt(0, |cs|, c) == 0
  {}

  /** The inner loop: the records of one aggregation. */
  method AddRecords(cs: seq<Classification>, k: nat, number: string, before: seq<Record>, componentsBefore: nat)
    returns (records: seq<Record>, components: nat)
    requires cs != [] && k > 0 && number == Planned(cs, k).number
    requires |before| == RecordTotal(k - 1) && componentsBefore == ComponentTotal(|before|)
    requires forall i :: 0 <= i < |before| ==>
      before[i].sequence == i + 1 && PlannedRecord(cs, before[i]) && before[i].aggregation < k
    ensures |records| == |before| + RecordsIn(k) && components == ComponentTotal(|records|) && before <= records
    ensures forall i :: |before| <= i < |records| ==>
      records[i].aggregation == k && records[i].place == i - |before| + 1
    ensures forall i :: 0 <= i < |records| ==>
      records[i].sequence == i + 1 && PlannedRecord(cs, records[i]) && records[i].aggregation <= k
  {
    hide RecordTotal, ComponentTotal, Planned;
    records, components := before, componentsBefore;
    var place := 1;
    while place <= RecordsIn(k)
      invariant 1 <= place <= RecordsIn(k) + 1 && |records| == |before| + place - 1 &&
        components == ComponentTotal(|records|)
      invariant forall i :: 0 <= i < |records| ==>
        records[i].sequence == i + 1 && PlannedRecord(cs, records[i]) && records[i].aggregation <= k
      invariant before <= records && forall i :: |before| <= i < |records| ==>
        records[i].aggregation == k && records[i].place == i - |before| + 1
    {
      var sequence := |records| + 1;
      ComponentTotalStep(|records|);
      var record := Record(sequence, k, place, RecordNumber(number, place), ComponentsIn(sequence));
      records, components := records + [record], components + ComponentsIn(sequence);
      place := place + 1;
    }
  }

  /** All aggregation numbers of a plan are distinct. */
  lemma AggregationNumbersDiffer(cs: seq<Classification>, k: nat, j: nat)
    requires cs != [] && Distinct(cs) && k > 0 && j > 0 && Planned(cs, k).number == Planned(cs, j).number
    ensures k == j
  {
    var n := |cs|;
    AggregationNumberIsInjective(cs[(k - 1) % n].code, Serial(k, n), cs[(j - 1) % n].code, Serial(j, n));
    SerialIsInjective(k, j, n);
  }

  /** All record numbers are distinct, and none is the number of an aggregation. */
  lemma RecordNumbersDiffer(cs: seq<Classification>, r: Record, r': Record, k: nat)
    requires cs != [] && Distinct(cs) && PlannedRecord(cs, r) && PlannedRecord(cs, r') && k > 0
    ensures r.number == r'.number ==> r == r'
    ensures r.number != Planned(cs, k).number
  {
    if r.number == r'.number {
      RecordNumberIsInjective(Planned(cs, r.aggregation).number, r.place, Planned(cs, r'.aggregation).number, r'.place);
      AggregationNumbersDiffer(cs, r.aggregation, r'.aggregation);
    }
    NumbersDiffer(cs[(k - 1) % |cs|].code, Serial(k, |cs|), Planned(cs, r.aggregation).number, r.place);
  }
}
