/** Ingestion of a pallet from the text of a scanned QR code
    (`ingresar_pallet`): the payload is five comma-separated fields, checked
    field by field before the pallet table is touched; a pallet code that is
    already stored is refused, any other valid payload is inserted. The pallet
    table is seen here only through its set of pallet codes (NPallet). */
module PalletIngest {

  datatype PalletRecord = PalletRecord(
    variety: string,
    description: string,
    market: string,
    harvestDate: string,
    code: string)

  datatype IngestError =
    | MalformedPayload             // not exactly five fields
    | InvalidDate(date: string)    // harvest date is not eight digits
    | InvalidCode(code: string)    // pallet code is not eight characters
    | DuplicateCode(code: string)  // pallet code is already stored

  datatype Result<T> = Ok(value: T) | Err(error: IngestError)

  /** What the operation answers: nothing at all for an empty payload, a
      refusal, or the record that was inserted. */
  datatype Response = NoInput | Rejected(error: IngestError) | Inserted(record: PalletRecord)

  datatype Ingestion = Ingestion(response: Response, codes: set<string>)

  /** Number of occurrences of `c` in `s`. */
  function Count(s: string, c: char): nat {
    if s == [] then 0 else (if s[0] == c then 1 else 0) + Count(s[1..], c)
  }

  /** Python's `s.split(sep)` for a one-character separator: the maximal
      runs between separators, empty runs included, so never an empty list. */
  function Split(s: string, sep: char): (fields: seq<string>)
    ensures |fields| >= 1
    ensures forall i :: 0 <= i < |fields| ==> sep !in fields[i]
    decreases |s|
  {
    if s == [] then [[]]
    else
      var rest := Split(s[1..], sep);
      if s[0] == sep then [[]] + rest
      else [[s[0]] + rest[0]] + rest[1..]
  }

  /** Python's `sep.join(fields)`. */
  function Join(fields: seq<string>, sep: char): string
    requires |fields| >= 1
  {
    if |fields| == 1 then fields[0] else fields[0] + [sep] + Join(fields[1..], sep)
  }

  /** Python's `str.isdigit`: non-empty and every character a digit. */
  predicate IsDigits(s: string) {
    |s| > 0 && forall i :: 0 <= i < |s| ==> '0' <= s[i] <= '9'
  }

  /** A harvest date (FechaFaena) is exactly eight digits. */
  predicate ValidDate(d: string) {
    |d| == 8 && IsDigits(d)
  }

  /** A pallet code (NPallet) is exactly eight characters; any characters. */
  predicate ValidCode(c: string) {
    |c| == 8
  }

  function Fields(rec: PalletRecord): seq<string> {
    [rec.variety, rec.description, rec.market, rec.harvestDate, rec.code]
  }

  /** A record that some payload can denote and that passes every check. */
  predicate WellFormed(rec: PalletRecord) {
    && (forall i :: 0 <= i < 5 ==> ',' !in Fields(rec)[i])
    && ValidDate(rec.harvestDate)
    && ValidCode(rec.code)
  }

  /** The payload a QR code carries for a record. */
  function Encode(rec: PalletRecord): string {
    Join(Fields(rec), ',')
  }

  /** The checks of `ingresar_pallet` that come before the database: the field
      count, then the harvest date, then the pallet code. */
  function ParseQr(raw: string): (r: Result<PalletRecord>)
    ensures r.Ok? ==> WellFormed(r.value) && Encode(r.value) == raw
    ensures r == Err(MalformedPayload) <==> Count(raw, ',') != 4
    ensures r.Err? ==> !r.error.DuplicateCode?
  {
    var fields := Split(raw, ',');
    SplitCount(raw, ',');
    if |fields| != 5 then Err(MalformedPayload)
    else if !ValidDate(fields[3]) then Err(InvalidDate(fields[3]))
    else if !ValidCode(fields[4]) then Err(InvalidCode(fields[4]))
    else
      var rec := PalletRecord(fields[0], fields[1], fields[2], fields[3], fields[4]);
      JoinSplit(raw, ',');
      assert Fields(rec) == fields;
      Ok(rec)
  }

  /** `ingresar_pallet` as a whole: an empty payload does nothing; a payload
      that fails a check or whose code is stored already is refused and leaves
      the codes as they were; otherwise the pallet is inserted. */
  function Ingest(codes: set<string>, raw: string): (r: Ingestion)
    ensures raw == [] ==> r == Ingestion(NoInput, codes)
    ensures r.response.Inserted? <==> raw != [] && ParseQr(raw).Ok? && ParseQr(raw).value.code !in codes
    ensures r.response.Inserted? ==>
      && WellFormed(r.response.record) && Encode(r.response.record) == raw
      && r.response.record.code !in codes
      && r.codes == codes + {r.response.record.code}
    ensures !r.response.Inserted? ==> r.codes == codes
    ensures r.response == Rejected(MalformedPayload) <==> raw != [] && Count(raw, ',') != 4
    ensures r.response.Rejected? && r.response.error.DuplicateCode? ==> r.response.error.code in codes
    ensures raw != [] && ParseQr(raw).Err? ==> r.response == Rejected(ParseQr(raw).error)
    ensures raw != [] && ParseQr(raw).Ok? && ParseQr(raw).value.code in codes ==>
      r.response == Rejected(DuplicateCode(ParseQr(raw).value.code))
    ensures raw != [] ==> !r.response.NoInput?
  {
    if raw == [] then Ingestion(NoInput, codes)
    else match ParseQr(raw)
      case Err(e) => Ingestion(Rejected(e), codes)
      case Ok(rec) =>
        if rec.code in codes then Ingestion(Rejected(DuplicateCode(rec.code)), codes)
        else Ingestion(Inserted(rec), codes + {rec.code})
  }

  // ---------------------------------------------------------------------
  // Splitting and joining

  lemma {:induction false} SplitCount(s: string, sep: char)
    ensures |Split(s, sep)| == Count(s, sep) + 1
    decreases |s|
  {
    if s != [] {
      SplitCount(s[1..], sep);
    }
  }

  lemma {:induction false} JoinSplit(s: string, sep: char)
    ensures Join(Split(s, sep), sep) == s
    decreases |s|
  {
    if s != [] {
      var rest := Split(s[1..], sep);
      JoinSplit(s[1..], sep);
      assert s == [s[0]] + s[1..];
      if s[0] != sep && |rest| > 1 {
        assert Join(rest, sep) == rest[0] + [sep] + Join(rest[1..], sep);
        assert [s[0]] + rest[0] + [sep] + Join(rest[1..], sep) == [s[0]] + (rest[0] + [sep] + Join(rest[1..], sep));
      }
    }
  }

  /** Splitting a separator-free prefix followed by anything extends the
      first field of the rest. */
  lemma {:induction false} SplitPrefix(a: string, t: string, sep: char)
    requires sep !in a
    ensures Split(a + t, sep) == [a + Split(t, sep)[0]] + Split(t, sep)[1..]
    decreases |a|
  {
    var rest := Split(t, sep);
    if a == [] {
      assert a + t == t && a + rest[0] == rest[0];
      assert rest == [rest[0]] + rest[1..];
    } else {
      assert a[0] in a;
      SplitPrefix(a[1..], t, sep);
      assert (a + t)[0] == a[0] && (a + t)[1..] == a[1..] + t;
      assert [a[0]] + (a[1..] + rest[0]) == a + rest[0];
    }
  }

  lemma {:induction false} SplitJoin(fields: seq<string>, sep: char)
    requires |fields| >= 1
    requires forall i :: 0 <= i < |fields| ==> sep !in fields[i]
    ensures Split(Join(fields, sep), sep) == fields
    decreases |fields|
  {
    if |fields| == 1 {
      SplitPrefix(fields[0], [], sep);
      assert fields[0] + [] == fields[0];
    } else {
      var tail := Join(fields[1..], sep);
      SplitJoin(fields[1..], sep);
      SplitPrefix(fields[0], [sep] + tail, sep);
      assert ([sep] + tail)[0] == sep && ([sep] + tail)[1..] == tail;
      assert Split([sep] + tail, sep) == [[]] + Split(tail, sep);
      assert fields[0] + [sep] + tail == fields[0] + ([sep] + tail);
      assert Join(fields, sep) == fields[0] + ([sep] + tail);
      assert fields[0] + [] == fields[0];
      assert fields == [fields[0]] + fields[1..];
    }
  }

  // ---------------------------------------------------------------------
  // Properties of the checks

  /** Parsing is the inverse of encoding on well-formed records. */
  lemma ParseEncode(rec: PalletRecord)
    requires WellFormed(rec)
    ensures ParseQr(Encode(rec)) == Ok(rec)
  {
    SplitJoin(Fields(rec), ',');
  }

  /** A payload is accepted as `rec` exactly when `rec` passes every check
      and the payload is the encoding of `rec`. */
  lemma ParseIff(raw: string, rec: PalletRecord)
    ensures ParseQr(raw) == Ok(rec) <==> WellFormed(rec) && Encode(rec) == raw
  {
    if WellFormed(rec) && Encode(rec) == raw {
      ParseEncode(rec);
    }
  }

  /** For any five separator-free fields, the date is checked first (eight
      digits), then the code (eight characters of any kind). */
  lemma FieldRules(variety: string, description: string, market: string, date: string, code: string)
    requires forall f :: f in [variety, description, market, date, code] ==> ',' !in f
    ensures ParseQr(Join([variety, description, market, date, code], ',')) ==
      if !ValidDate(date) then Err(InvalidDate(date))
      else if !ValidCode(code) then Err(InvalidCode(code))
      else Ok(PalletRecord(variety, description, market, date, code))
  {
    var fields := [variety, description, market, date, code];
    forall i | 0 <= i < 5 ensures ',' !in fields[i] {
      assert fields[i] in fields;
    }
    SplitJoin(fields, ',');
  }

  /** Ingesting the same payload twice inserts at most once: the second
      attempt changes nothing, and refuses the code if the first inserted it. */
  lemma IngestTwice(codes: set<string>, raw: string)
    ensures Ingest(Ingest(codes, raw).codes, raw).codes == Ingest(codes, raw).codes
    ensures Ingest(codes, raw).response.Inserted? ==>
      Ingest(Ingest(codes, raw).codes, raw).response == Rejected(DuplicateCode(Ingest(codes, raw).response.record.code))
  {
  }

  // ---------------------------------------------------------------------
  // Concrete payloads

  lemma AcceptedExample()
    ensures ParseQr(Join(["VarietyX", "DescY", "MarketZ", "20240115", "12345678"], ',')) ==
      Ok(PalletRecord("VarietyX", "DescY", "MarketZ", "20240115", "12345678"))
  {
    DateExample();
    FieldRules("VarietyX", "DescY", "MarketZ", "20240115", "12345678");
  }

  lemma ShortDateExample()
    ensures ParseQr(Join(["A", "B", "C", "2024011", "12345678"], ',')) == Err(InvalidDate("2024011"))
  {
    FieldRules("A", "B", "C", "2024011", "12345678");
  }

  lemma ShortCodeExample()
    ensures ParseQr(Join(["A", "B", "C", "20240115", "1234567"], ',')) == Err(InvalidCode("1234567"))
  {
    DateExample();
    FieldRules("A", "B", "C", "20240115", "1234567");
  }

  /** The code check asks for length only: letters pass. */
  lemma LetterCodeExample()
    ensures ParseQr(Join(["A", "B", "C", "20240115", "ABCDEFGH"], ',')).Ok?
  {
    DateExample();
    FieldRules("A", "B", "C", "20240115", "ABCDEFGH");
  }

  lemma DateExample()
    ensures ValidDate("20240115")
  {
  }
}
