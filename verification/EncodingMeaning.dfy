/** What the cells of an encoded record say about its fields, and the three datetime features about an
    instant. */
module EncodingMeaning {
  import opened Common
  import opened FeatureQueries
  import opened Encoding
  import Meaning = FeatureMeaning

  /** The features of an instant `hour` hours and `rest` microseconds into a day: the hour in 24ths, the weekday
      in sevenths, Monday 0, and the days since 2020 in tens of years, kept between 0 and 1. */
  lemma DatetimeFeaturesMean(day: int, hour: int, rest: int)
    requires 0 <= hour < 24 && 0 <= rest < Meaning.HOUR
    ensures var m := EncodeDatetime(day * Meaning.DAY + hour * Meaning.HOUR + rest);
            && m.hour * 24.0 == hour as real
            && m.weekday * 7.0 == ((day + 3) % 7) as real
            && (0 <= day - 18262 <= 3652 ==> m.years * 3652.5 == (day - 18262) as real)
            && (day < 18262 ==> m.years == 0.0) && (day - 18262 > 3652 ==> m.years == 1.0)
  {
    var t := day * Meaning.DAY + hour * Meaning.HOUR + rest;
    Meaning.HourOfDayMeans(day, hour, rest);
    assert t == day * Meaning.DAY + (hour * Meaning.HOUR + rest);
    assert t / Meaning.DAY == day;
    assert Meaning.DAY == MICROSECONDS_PER_DAY;
    YearsMean(day);
  }

  lemma YearsMean(day: int)
    ensures var years := Clamp((day - EPOCH_DAY) as real / 365.25 / 10.0);
            && (0 <= day - 18262 <= 3652 ==> years * 3652.5 == (day - 18262) as real)
            && (day < 18262 ==> years == 0.0) && (day - 18262 > 3652 ==> years == 1.0)
  {
  }

  /** Two texts get the same id exactly when their digests agree modulo the ids there are. */
  lemma TextsCollideExactlyWhen(e: Encoder, text: string, other: string)
    requires e.vocabSize >= 2
    ensures HashCategorical(e, text) == HashCategorical(e, other)
            <==> (e.digest(text) - e.digest(other)) % (e.vocabSize - 1) == 0
  {
    SameRemainder(e.digest(text), e.digest(other), e.vocabSize - 1);
  }

  lemma SameRemainder(a: int, b: int, n: int)
    requires n > 0
    ensures a % n == b % n <==> (a - b) % n == 0
  {
    var q, r := a / n, b / n;
    assert a == q * n + a % n && b == r * n + b % n;
    if a % n == b % n {
      assert a - b == (q - r) * n;
      MultipleHasNoRemainder(q - r, n);
    } else {
      var d := a % n - b % n;
      assert a - b == (q - r) * n + d;
      if (a - b) % n == 0 {
        var k := (a - b) / n;
        assert a - b == k * n;
        assert d == (k - (q - r)) * n;
        NoSmallMultiple(k - (q - r), n, d);
      }
    }
  }

  lemma MultipleHasNoRemainder(k: int, n: int)
    requires n > 0
    ensures k * n % n == 0
  {
    var quotient, rest := k * n / n, k * n % n;
    assert k * n == quotient * n + rest && 0 <= rest < n;
    assert rest == (k - quotient) * n;
    NoSmallMultiple(k - quotient, n, rest);
  }

  lemma NoSmallMultiple(k: int, n: int, d: int)
    requires n > 0 && d == k * n && -n < d < n
    ensures d == 0
  {
    assert k >= 1 ==> k * n >= n;
    assert k <= -1 ==> k * n <= -n;
  }

  // ---- an encoded record --------------------------------------------------------------------------

  /** The field is there and not null. */
  predicate IsPresent(r: Record, field: string) {
    field in r.fields && !r.fields[field].Null?
  }

  /** A position that holds a record names its entity and relationship, and slot by slot, in the order of the
      entity's fields, says which are present and with what value. */
  lemma PositionTellsItsRecord(e: Encoder, p: Position, r: Record)
    requires e.vocabSize >= 2 && HoldsRecord(e, p, r)
    ensures p.attended && p.entityType < |e.layout.entityVocab| && e.layout.entityVocab[p.entityType] == r.entity
    ensures p.relationship < |e.layout.relationshipVocab|
            && e.layout.relationshipVocab[p.relationship] == r.relationship
    ensures r.entity in e.layout.schemas
    ensures forall i: nat :: i < |e.layout.schemas[r.entity].numericFields| ==>
              TellsNumber(e, p, r, i, e.layout.schemas[r.entity].numericFields[i])
    ensures forall i: nat :: i < |e.layout.schemas[r.entity].categoricalFields| ==>
              TellsCategory(e, p, r, i, e.layout.schemas[r.entity].categoricalFields[i])
    ensures forall i: nat :: i < |e.layout.schemas[r.entity].datetimeFields| ==>
              TellsInstant(p, r, i, e.layout.schemas[r.entity].datetimeFields[i])
  {
    var schema := e.layout.schemas[r.entity];
    var v := ViewOf(e, r);
    forall i: nat | i < |schema.numericFields|
      ensures TellsNumber(e, p, r, i, schema.numericFields[i])
    {
      assert v.numeric[i] == NumericCell(e, r, schema.numericFields[i]);
      assert IsNumeric(e, r, schema.numericFields[i]);
    }
    forall i: nat | i < |schema.categoricalFields|
      ensures TellsCategory(e, p, r, i, schema.categoricalFields[i])
    {
      assert v.categorical[i] == CategoricalCell(e, r, schema.categoricalFields[i]);
    }
    forall i: nat | i < |schema.datetimeFields|
      ensures TellsInstant(p, r, i, schema.datetimeFields[i])
    {
      assert v.datetime[i] == DatetimeCell(r, schema.datetimeFields[i]);
    }
  }

  predicate TellsNumber(e: Encoder, p: Position, r: Record, i: nat, field: string) {
    && i < |p.numericMask| && i < |p.numericValues| && (p.numericMask[i] <==> IsPresent(r, field))
    && (if p.numericMask[i] && field in r.fields then e.toFloat(r.fields[field]) == Some(p.numericValues[i])
        else p.numericValues[i] == 0.0)
  }

  predicate TellsCategory(e: Encoder, p: Position, r: Record, i: nat, field: string)
    requires e.vocabSize >= 2
  {
    && i < |p.categoricalMask| && i < |p.categoricalIds| && (p.categoricalMask[i] <==> IsPresent(r, field))
    && (if p.categoricalMask[i] && field in r.fields then
          p.categoricalIds[i] == HashCategorical(e, e.render(r.fields[field]))
        else p.categoricalIds[i] == 0)
  }

  predicate TellsInstant(p: Position, r: Record, i: nat, field: string) {
    && i < |p.datetimeMask| && i < |p.datetimeValues|
    && (p.datetimeMask[i] <==> field in r.fields && r.fields[field].Instant?)
    && p.datetimeValues[i]
       == if field in r.fields && r.fields[field].Instant? then EncodeDatetime(r.fields[field].t) else NO_MOMENT
  }
}
