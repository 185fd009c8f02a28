/** The streaming pipeline's two per-element steps: parsing a CSV
    transaction line into a table row, and tagging a row with a value
    category. Java's `String.trim`, `String.split(",")` and
    `Integer.parseInt` are modelled exactly for ASCII text;
    `Double.parseDouble` is a parameter. */
module Pipeline {
  import opened Common

  /** A character `String.trim` removes: any code point up to U+0020. */
  predicate Blank(c: char) {
    c <= ' '
  }

  /** The first index from `st` on that holds a non-blank character (`st`
      advancing in `String.trim`). */
  function TrimStart(s: string, st: nat): (k: nat)
    requires st <= |s|
    ensures st <= k <= |s|
    ensures forall j :: st <= j < k ==> Blank(s[j])
    ensures k < |s| ==> !Blank(s[k])
    decreases |s| - st
  {
    if st == |s| || !Blank(s[st]) then st else TrimStart(s, st + 1)
  }

  /** The end of the text once trailing blanks down to `st` are dropped
      (`len` retreating in `String.trim`). */
  function TrimEnd(s: string, st: nat, len: nat): (e: nat)
    requires st <= len <= |s|
    ensures st <= e <= len
    ensures forall j :: e <= j < len ==> Blank(s[j])
    ensures e > st ==> !Blank(s[e - 1])
    decreases len
  {
    if len == st || !Blank(s[len - 1]) then len else TrimEnd(s, st, len - 1)
  }

  /** `String.trim()`: leading and trailing blanks removed. */
  function Trim(s: string): string {
    var st := TrimStart(s, 0);
    s[st..TrimEnd(s, st, |s|)]
  }

  /** A string is its own trim exactly when it is empty or neither starts
      nor ends with a blank. */
  lemma TrimFixed(s: string)
    ensures Trim(s) == s <==> s == [] || (!Blank(s[0]) && !Blank(s[|s| - 1]))
  {
    var st := TrimStart(s, 0);
    var e := TrimEnd(s, st, |s|);
    if Trim(s) == s && s != [] {
      assert st == 0 && e == |s|;
    }
  }

  /** Trimming twice trims no more than once. */
  lemma TrimIdempotent(s: string)
    ensures Trim(Trim(s)) == Trim(s)
  {
    var st := TrimStart(s, 0);
    var e := TrimEnd(s, st, |s|);
    var t := Trim(s);
    if t != [] {
      assert t[0] == s[st] && t[|t| - 1] == s[e - 1];
    }
    TrimFixed(t);
  }

  /** A string holding a non-blank character does not trim to nothing. */
  lemma TrimKeepsNonBlank(s: string, k: nat)
    requires k < |s| && !Blank(s[k])
    ensures Trim(s) != []
  {
    var st := TrimStart(s, 0);
    var e := TrimEnd(s, st, |s|);
    assert st <= k < e;
  }

  /** `s.startsWith(p)`. */
  predicate StartsWith(s: string, p: string) {
    |p| <= |s| && s[..|p|] == p
  }

  /** The fields of a CSV line joined back with commas. */
  function Join(ps: seq<string>): string {
    if |ps| == 0 then [] else if |ps| == 1 then ps[0] else ps[0] + [','] + Join(ps[1..])
  }

  /** Every comma-separated piece of `s`, empty ones included. */
  function SplitAll(s: string): (ps: seq<string>)
    ensures |ps| >= 1
    ensures forall i :: 0 <= i < |ps| ==> ',' !in ps[i]
    ensures Join(ps) == s
  {
    if s == [] then [[]]
    else
      var rest := SplitAll(s[1..]);
      if s[0] == ',' then
        assert Join([[]] + rest) == [','] + Join(rest) by {
          assert ([[]] + rest)[1..] == rest;
        }
        [[]] + rest
      else
        var first := [s[0]] + rest[0];
        assert Join([first] + rest[1..]) == [s[0]] + Join(rest) by {
          if |rest| > 1 {
            assert ([first] + rest[1..])[1..] == rest[1..];
          }
        }
        [first] + rest[1..]
  }

  /** A piece without commas stays in one piece when text follows it. */
  lemma {:induction false} SplitPiece(p: string, tail: string)
    requires ',' !in p
    ensures SplitAll(p + tail) == [p + SplitAll(tail)[0]] + SplitAll(tail)[1..]
  {
    var t := SplitAll(tail);
    if p == [] {
      assert p + tail == tail;
      assert p + t[0] == t[0];
      assert [t[0]] + t[1..] == t;
    } else {
      assert p[0] != ',' by {
        assert p[0] in p;
      }
      assert (p + tail)[1..] == p[1..] + tail;
      SplitPiece(p[1..], tail);
      var rest := SplitAll(p[1..] + tail);
      assert rest[0] == p[1..] + t[0] && rest[1..] == t[1..];
      assert [p[0]] + (p[1..] + t[0]) == p + t[0];
    }
  }

  /** Splitting undoes joining pieces that hold no comma. */
  lemma {:induction false} SplitJoin(ps: seq<string>)
    requires |ps| >= 1 && forall i :: 0 <= i < |ps| ==> ',' !in ps[i]
    ensures SplitAll(Join(ps)) == ps
  {
    if |ps| == 1 {
      SplitPiece(ps[0], []);
      assert ps[0] + [] == ps[0];
    } else {
      var rest := ps[1..];
      SplitJoin(rest);
      var tail := [','] + Join(rest);
      assert tail[1..] == Join(rest);
      assert SplitAll(tail) == [[]] + rest;
      SplitPiece(ps[0], tail);
      assert ps[0] + (tail) == ps[0] + [','] + Join(rest);
      assert ps[0] + [] == ps[0];
    }
  }

  /** The pieces left once trailing empty pieces are removed. */
  function DropTrailingEmpty(ps: seq<string>): (r: seq<string>)
    ensures r <= ps
    ensures r == [] || r[|r| - 1] != []
    ensures forall i :: |r| <= i < |ps| ==> ps[i] == []
  {
    if ps == [] || ps[|ps| - 1] != [] then ps else DropTrailingEmpty(ps[..|ps| - 1])
  }

  /** `s.split(",")`: a string without a comma is its own only field;
      otherwise the comma-separated pieces with trailing empty pieces
      removed. */
  function JavaSplit(s: string): seq<string> {
    if ',' !in s then [s] else DropTrailingEmpty(SplitAll(s))
  }

  /** The leading fields of a line survive the split unchanged as long as the
      last of them is not empty, whatever follows them. */
  lemma SplitKeepsFields(ps: seq<string>, k: nat)
    requires 1 <= k <= |ps| && 2 <= |ps|
    requires forall i :: 0 <= i < |ps| ==> ',' !in ps[i]
    requires ps[k - 1] != []
    ensures |JavaSplit(Join(ps))| >= k && JavaSplit(Join(ps))[..k] == ps[..k]
  {
    assert ',' in Join(ps) by {
      assert Join(ps) == ps[0] + [','] + Join(ps[1..]);
      assert Join(ps)[|ps[0]|] == ',';
    }
    SplitJoin(ps);
  }

  /** The quirk of `split`: a line of six fields whose last is empty yields
      only five (or fewer) fields. */
  lemma EmptyLastFieldDropped(ps: seq<string>)
    requires |ps| == TRANSACTION_FIELDS && forall i :: 0 <= i < |ps| ==> ',' !in ps[i]
    requires ps[5] == []
    ensures |JavaSplit(Join(ps))| < TRANSACTION_FIELDS
  {
    assert ',' in Join(ps) by {
      assert Join(ps) == ps[0] + [','] + Join(ps[1..]);
      assert Join(ps)[|ps[0]|] == ',';
    }
    SplitJoin(ps);
  }

  const INT_MIN: int := -0x8000_0000
  const INT_MAX: int := 0x7fff_ffff

  predicate IsDigit(c: char) {
    '0' <= c <= '9'
  }

  predicate AllDigits(s: string) {
    forall i :: 0 <= i < |s| ==> IsDigit(s[i])
  }

  /** The value of a string of decimal digits. */
  function DecimalValue(s: string): nat
    requires AllDigits(s)
  {
    if s == [] then 0 else DecimalValue(s[..|s| - 1]) * 10 + (s[|s| - 1] as int - '0' as int)
  }

  /** `Integer.parseInt(s)`: an optional sign followed by at least one digit,
      with a value in the 32-bit range; `None` for a
      `NumberFormatException`. */
  function ParseInt(s: string): (r: Option<int>)
    ensures r.Some? ==> INT_MIN <= r.value <= INT_MAX
  {
    if s == [] then None
    else
      var digits := if s[0] == '-' || s[0] == '+' then s[1..] else s;
      if digits == [] || !AllDigits(digits) then None
      else
        var v: int := if s[0] == '-' then -(DecimalValue(digits) as int) else DecimalValue(digits);
        if INT_MIN <= v <= INT_MAX then Some(v) else None
  }

  /** The decimal digits of `n`, without leading zeros. */
  function Decimal(n: nat): (s: string)
    ensures |s| >= 1 && AllDigits(s) && DecimalValue(s) == n
  {
    var last := ('0' as int + n % 10) as char;
    if n < 10 then
      assert [last][..0] == [];
      [last]
    else
      var init := Decimal(n / 10);
      assert (init + [last])[..|init|] == init;
      init + [last]
  }

  /** `Integer.toString(v)`. */
  function ShowInt(v: int): string {
    if v < 0 then ['-'] + Decimal(-v) else Decimal(v)
  }

  /** Parsing undoes printing for exactly the 32-bit integers. */
  lemma ParseShowInt(v: int)
    ensures ParseInt(ShowInt(v)) == (if INT_MIN <= v <= INT_MAX then Some(v) else None)
  {
    var s := ShowInt(v);
    if v < 0 {
      assert s[1..] == Decimal(-v);
    }
  }

  /** A printed integer has no comma and no blank at either end. */
  lemma ShowIntPlain(v: int)
    ensures ',' !in ShowInt(v)
    ensures Trim(ShowInt(v)) == ShowInt(v)
  {
    var s := ShowInt(v);
    var d := Decimal(if v < 0 then -v else v);
    assert forall i :: 0 <= i < |d| ==> IsDigit(d[i]);
    assert forall i :: 0 <= i < |s| ==> s[i] == '-' || IsDigit(s[i]);
    TrimFixed(s);
  }

  /** A table cell. */
  datatype Value = StringValue(s: string) | IntValue(i: int) | DoubleValue(d: real)

  /** The columns of the output table, with the two the analysis adds. */
  datatype Column =
    | TransactionId | UserId | ProductId | Quantity | Price | Timestamp | TotalAmount | ProcessedTime
    | UserCategory | AnalysisTimestamp

  type Fields = map<Column, Value>

  /** The first characters of the CSV header line. */
  const HEADER: string := "transaction_id"

  const TRANSACTION_FIELDS: nat := 6

  predicate Int32(v: int) {
    INT_MIN <= v <= INT_MAX
  }

  /** `quantity * price`: Java widens the int to a double. */
  function Amount(quantity: int, price: real): real {
    quantity as real * price
  }

  /** The values the parser sets on a new row. */
  datatype ParsedRow = ParsedRow(
    transactionId: string, userId: int, productId: int, quantity: int, price: real,
    timestamp: string, totalAmount: real, processedTime: string)

  /** The parse of the first six fields of a line, trimmed: `None` when one
      of the numbers does not parse; `now` is the processing time stamp. */
  function ParseFields(fields: seq<string>, parseDouble: string -> Option<real>, now: string): (r: Option<ParsedRow>)
    requires |fields| >= TRANSACTION_FIELDS
    ensures r.Some? <==>
      && ParseInt(Trim(fields[1])).Some? && ParseInt(Trim(fields[2])).Some? && ParseInt(Trim(fields[3])).Some?
      && parseDouble(Trim(fields[4])).Some?
    ensures r.Some? ==>
      && Int32(r.value.userId) && Int32(r.value.productId) && Int32(r.value.quantity)
      && r.value.totalAmount == Amount(r.value.quantity, r.value.price)
    ensures r.Some? ==>
      && r.value.transactionId == Trim(fields[0]) && r.value.timestamp == Trim(fields[5])
      && ParseInt(Trim(fields[1])) == Some(r.value.userId)
      && ParseInt(Trim(fields[2])) == Some(r.value.productId)
      && ParseInt(Trim(fields[3])) == Some(r.value.quantity)
      && parseDouble(Trim(fields[4])) == Some(r.value.price)
      && r.value.processedTime == now
  {
    match (ParseInt(Trim(fields[1])), ParseInt(Trim(fields[2])), ParseInt(Trim(fields[3])),
           parseDouble(Trim(fields[4])))
    case (Some(userId), Some(productId), Some(quantity), Some(price)) =>
      Some(ParsedRow(Trim(fields[0]), userId, productId, quantity, price, Trim(fields[5]),
                     Amount(quantity, price), now))
    case _ => None
  }

  /** `ParseTransactionFn.processElement` for one line: `None` (nothing
      emitted) for the header, a blank line, fewer than six fields or a
      number that does not parse. */
  function ParseTransaction(line: string, parseDouble: string -> Option<real>, now: string): (r: Option<ParsedRow>)
    ensures r.Some? ==> !StartsWith(line, HEADER) && Trim(line) != [] && |JavaSplit(line)| >= TRANSACTION_FIELDS
    ensures r.Some? ==> r == ParseFields(JavaSplit(line), parseDouble, now)
    ensures !StartsWith(line, HEADER) && Trim(line) != [] && |JavaSplit(line)| >= TRANSACTION_FIELDS ==>
      r == ParseFields(JavaSplit(line), parseDouble, now)
  {
    if StartsWith(line, HEADER) || Trim(line) == [] then None
    else
      var fields := JavaSplit(line);
      if |fields| < TRANSACTION_FIELDS then None
      else ParseFields(fields, parseDouble, now)
  }

  /** The emitted `TableRow`: the eight columns set by the parser. */
  function RowFields(row: ParsedRow): (f: Fields)
    ensures f.Keys == {TransactionId, UserId, ProductId, Quantity, Price, Timestamp, TotalAmount, ProcessedTime}
    ensures f[TransactionId] == StringValue(row.transactionId) && f[Timestamp] == StringValue(row.timestamp)
    ensures f[UserId] == IntValue(row.userId) && f[ProductId] == IntValue(row.productId)
    ensures f[Quantity] == IntValue(row.quantity) && f[Price] == DoubleValue(row.price)
    ensures f[TotalAmount] == DoubleValue(row.totalAmount)
    ensures f[ProcessedTime] == StringValue(row.processedTime)
  {
    map[
      TransactionId := StringValue(row.transactionId),
      UserId := IntValue(row.userId),
      ProductId := IntValue(row.productId),
      Quantity := IntValue(row.quantity),
      Price := DoubleValue(row.price),
      Timestamp := StringValue(row.timestamp),
      TotalAmount := DoubleValue(row.totalAmount),
      ProcessedTime := StringValue(row.processedTime)]
  }

  /** A transaction as written to a CSV line: the price keeps its text. */
  datatype Transaction = Transaction(
    id: string, userId: int, productId: int, quantity: int, priceText: string, timestamp: string)

  function CsvFields(t: Transaction): seq<string> {
    [t.id, ShowInt(t.userId), ShowInt(t.productId), ShowInt(t.quantity), t.priceText, t.timestamp]
  }

  /** The fields of a written line come back from the split unchanged. */
  lemma SplitWrittenLine(t: Transaction, extra: seq<string>)
    requires ',' !in t.id && ',' !in t.priceText && ',' !in t.timestamp && t.timestamp != []
    requires forall i :: 0 <= i < |extra| ==> ',' !in extra[i]
    ensures |JavaSplit(Join(CsvFields(t) + extra))| >= TRANSACTION_FIELDS
    ensures JavaSplit(Join(CsvFields(t) + extra))[..TRANSACTION_FIELDS] == CsvFields(t)
  {
    var ps := CsvFields(t) + extra;
    ShowIntPlain(t.userId);
    ShowIntPlain(t.productId);
    ShowIntPlain(t.quantity);
    assert forall i :: 0 <= i < |ps| ==> ',' !in ps[i] by {
      assert forall i :: 0 <= i < |extra| ==> ps[TRANSACTION_FIELDS + i] == extra[i];
    }
    SplitKeepsFields(ps, TRANSACTION_FIELDS);
    assert ps[..TRANSACTION_FIELDS] == CsvFields(t);
  }

  /** Fields that start with a transaction's CSV fields hold them one by one. */
  lemma CsvFieldsAt(fields: seq<string>, t: Transaction)
    requires |fields| >= TRANSACTION_FIELDS && fields[..TRANSACTION_FIELDS] == CsvFields(t)
    ensures fields[0] == t.id && fields[4] == t.priceText && fields[5] == t.timestamp
    ensures fields[1] == ShowInt(t.userId) && fields[2] == ShowInt(t.productId) && fields[3] == ShowInt(t.quantity)
  {
    assert forall i :: 0 <= i < TRANSACTION_FIELDS ==> fields[i] == fields[..TRANSACTION_FIELDS][i];
  }

  /** A written line is neither the header nor blank. */
  lemma WrittenLineIsData(t: Transaction, extra: seq<string>)
    requires ',' !in t.id && !StartsWith(t.id, HEADER)
    ensures !StartsWith(Join(CsvFields(t) + extra), HEADER)
    ensures Trim(Join(CsvFields(t) + extra)) != []
  {
    var ps := CsvFields(t) + extra;
    var line := Join(ps);
    assert line == t.id + [','] + Join(ps[1..]);
    assert line[|t.id|] == ',';
    if |t.id| < |HEADER| {
      assert HEADER[|t.id|] != ',';
    } else {
      assert line[..|HEADER|] == t.id[..|HEADER|];
    }
    TrimKeepsNonBlank(line, |t.id|);
  }

  /** A line written from a transaction, with any further comma-free fields
      after the sixth, parses back to that transaction: the extra fields are
      ignored and the total is quantity times price. */
  lemma ParseWrittenLine(t: Transaction, extra: seq<string>, parseDouble: string -> Option<real>, now: string, price: real)
    requires Int32(t.userId) && Int32(t.productId) && Int32(t.quantity)
    requires ',' !in t.id && ',' !in t.priceText && ',' !in t.timestamp
    requires forall i :: 0 <= i < |extra| ==> ',' !in extra[i]
    requires Trim(t.id) == t.id && Trim(t.priceText) == t.priceText && Trim(t.timestamp) == t.timestamp
    requires t.timestamp != [] && !StartsWith(t.id, HEADER)
    requires parseDouble(t.priceText) == Some(price)
    ensures ParseTransaction(Join(CsvFields(t) + extra), parseDouble, now)
      == Some(ParsedRow(t.id, t.userId, t.productId, t.quantity, price, t.timestamp, Amount(t.quantity, price), now))
  {
    var line := Join(CsvFields(t) + extra);
    SplitWrittenLine(t, extra);
    WrittenLineIsData(t, extra);
    var fields := JavaSplit(line);
    CsvFieldsAt(fields, t);
    assert ParseInt(Trim(fields[1])) == Some(t.userId) by {
      ShowIntPlain(t.userId);
      ParseShowInt(t.userId);
    }
    assert ParseInt(Trim(fields[2])) == Some(t.productId) by {
      ShowIntPlain(t.productId);
      ParseShowInt(t.productId);
    }
    assert ParseInt(Trim(fields[3])) == Some(t.quantity) by {
      ShowIntPlain(t.quantity);
      ParseShowInt(t.quantity);
    }
    assert ParseTransaction(line, parseDouble, now) == ParseFields(fields, parseDouble, now);
  }

  /** The quirk of `split`: a line written with an empty time stamp and no
      further fields yields fewer than six fields, so it is dropped. */
  lemma EmptyTimestampDropped(t: Transaction, parseDouble: string -> Option<real>, now: string)
    requires ',' !in t.id && ',' !in t.priceText && t.timestamp == []
    ensures ParseTransaction(Join(CsvFields(t)), parseDouble, now) == None
  {
    ShowIntPlain(t.userId);
    ShowIntPlain(t.productId);
    ShowIntPlain(t.quantity);
    EmptyLastFieldDropped(CsvFields(t));
  }

  /** `AnalyzeUserBehaviorFn`'s value category for a total amount. */
  function Category(amount: real): (c: string)
    ensures c == "high_value" <==> amount > 10000.0
    ensures c == "medium_value" <==> 5000.0 < amount <= 10000.0
    ensures c == "low_value" <==> amount <= 5000.0
  {
    if amount > 10000.0 then "high_value"
    else if amount > 5000.0 then "medium_value"
    else "low_value"
  }

  /** A row as `AnalyzeUserBehaviorFn` leaves it: tagged with its category
      and the analysis time when `total_amount` holds a double; otherwise
      (the cast or the unboxing throws) unchanged. */
  function Analyzed(fields: Fields, now: string): Fields {
    if TotalAmount in fields && fields[TotalAmount].DoubleValue? then
      fields[UserCategory := StringValue(Category(fields[TotalAmount].d))][AnalysisTimestamp := StringValue(now)]
    else fields
  }

  /** The analysis tags a parsed row with the category of its total and
      the analysis time, and keeps all its parsed columns. */
  lemma RowCategorised(row: ParsedRow, now: string)
    ensures var tagged := Analyzed(RowFields(row), now);
      && tagged[UserCategory] == StringValue(Category(row.totalAmount))
      && tagged[AnalysisTimestamp] == StringValue(now)
      && forall c :: c in RowFields(row) ==> c in tagged && tagged[c] == RowFields(row)[c]
  {
    var f := RowFields(row);
    assert UserCategory !in f.Keys;
    assert AnalysisTimestamp !in f.Keys;
  }

  /** Every row the parser emits is tagged by the analysis with the
      category of quantity times price, and keeps all its parsed columns. */
  lemma ParsedRowsAreCategorised(line: string, parseDouble: string -> Option<real>, parsedAt: string, now: string)
    requires ParseTransaction(line, parseDouble, parsedAt).Some?
    ensures var row := ParseTransaction(line, parseDouble, parsedAt).value;
      var tagged := Analyzed(RowFields(row), now);
      && tagged[UserCategory] == StringValue(Category(Amount(row.quantity, row.price)))
      && tagged[AnalysisTimestamp] == StringValue(now)
      && forall c :: c in RowFields(row) ==> c in tagged && tagged[c] == RowFields(row)[c]
  {
    var row := ParseTransaction(line, parseDouble, parsedAt).value;
    assert row.totalAmount == Amount(row.quantity, row.price) by {
      assert ParseFields(JavaSplit(line), parseDouble, parsedAt) == Some(row);
    }
    RowCategorised(row, now);
  }

  /** A BigQuery `TableRow`: a mutable map from column names to values. */
  class TableRow {
    var fields: Fields

    constructor(fields: Fields)
      ensures this.fields == fields
    {
      this.fields := fields;
    }

    /** `row.get(key)`: `None` for Java's `null`. */
    function Get(key: Column): (v: Option<Value>)
      reads this
      ensures v.Some? <==> key in fields
      ensures v.Some? ==> v.value == fields[key]
    {
      if key in fields then Some(fields[key]) else None
    }

    /** `row.set(key, value)`. */
    method Set(key: Column, value: Value)
      modifies this
      ensures fields == old(fields)[key := value]
    {
      fields := fields[key := value];
    }
  }

  /** `AnalyzeUserBehaviorFn.processElement`: tags the incoming row in place
      and emits that same row, exactly once, whether or not the analysis
      threw. */
  method AnalyzeUserBehavior(transaction: TableRow, now: string) returns (output: TableRow)
    modifies transaction
    ensures output == transaction
    ensures transaction.fields == Analyzed(old(transaction.fields), now)
  {
    var total := transaction.Get(TotalAmount);
    if total.None? || !total.value.DoubleValue? {
      return transaction;
    }
    var category := Category(total.value.d);
    transaction.Set(UserCategory, StringValue(category));
    transaction.Set(AnalysisTimestamp, StringValue(now));
    output := transaction;
  }
}
